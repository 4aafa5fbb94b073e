/** What a client is told of a whole response, part by part: text, thoughts, foreign blocks and wrapped tool calls.

    The parts are written down as a model produces them, marker by marker, and so are the events they become;
    neither looks at the engine's transition table.
 */
module Responses {
  import opened StreamingParser
  import opened Wrappers

  datatype Place = InText | InThought | InForeign | InName | InArgs

  /** Markers that end the place or begin something in it; all others are content like any text. */
  predicate Marks(cfg: Config, place: Place, t: Terminal) {
    match place
    case InText =>
      || t.ThinkStart? || t.ForeignStart?
      || (!cfg.skipToolParsing && (t.ToolStart? || (t.InvokePrefix? && !cfg.suppressToolCalls && cfg.allowed.Some?)))
    case InThought => t.ThinkEnd? || t.ToolStart?
    case InForeign => t.ForeignEnd? || (!cfg.skipToolParsing && t.ToolStart?)
    case InName => t.InvokeNameEnd?
    case InArgs => t.InvokeEnd? || t.ToolEnd?
  }

  /** What leaves no trace: empty text, a marker that changes nothing where it stands, a token to drop. */
  predicate Silent(cfg: Config, place: Place, tok: Token) {
    match tok
    case Text(value) => value == ""
    case Term(t, _) =>
      (place.InText? && t.ThinkEnd?) || (place.InThought? && t.ThinkStart?) || (cfg.hasDrops && t.DropTerminal?)
  }

  predicate Inside(cfg: Config, place: Place, tokens: seq<Token>) {
    forall i :: 0 <= i < |tokens| && tokens[i].Term? ==> !Marks(cfg, place, tokens[i].terminal)
  }

  function KindOf(place: Place): EventType {
    match place
    case InText => TextChunk
    case InThought => ReasoningChunk
    case InForeign => TextChunk
    case InName => ToolNameChunk
    case InArgs => ArgValueChunk
  }

  /** The content of a place, chunk by chunk. */
  function Told(cfg: Config, place: Place, tokens: seq<Token>, index: int): seq<Event> {
    if tokens == [] then []
    else
      var rest := Told(cfg, place, tokens[1..], index);
      if Silent(cfg, place, tokens[0]) then rest else [Event(KindOf(place), tokens[0].value, index)] + rest
  }

  /** The content as one text. */
  function TextOf(cfg: Config, place: Place, tokens: seq<Token>): string {
    if tokens == [] then ""
    else (if Silent(cfg, place, tokens[0]) then "" else tokens[0].value) + TextOf(cfg, place, tokens[1..])
  }

  /** Within a wrapper but outside its calls nothing is told. */
  predicate Gap(tokens: seq<Token>) {
    forall i :: 0 <= i < |tokens| && tokens[i].Term? ==>
      !tokens[i].terminal.InvokePrefix? && !tokens[i].terminal.ToolEnd?
  }

  datatype Call = Call(prefix: string, name: seq<Token>, nameEnd: string, args: seq<Token>)

  /** A further call of a wrapper: the end of the one before it, what stands between them, and the call. */
  datatype More = More(callEnd: string, gap: seq<Token>, call: Call)

  /** What a wrapper of calls follows: text, or a thought or a foreign block that it ends. */
  datatype Before =
    | FromText
    | FromThought(open: string, tokens: seq<Token>)
    | FromForeign(open: string, tokens: seq<Token>)

  /** A wrapper up to the end of its last call's arguments. */
  datatype Wrapper = Wrapper(before: Before, open: string, gap: seq<Token>, call: Call, more: seq<More>)

  /** How a wrapper ends: after its last call's end, or with that end missing. */
  datatype Close = Closed(callEnd: string, gap: seq<Token>, wrapEnd: string) | Cut(wrapEnd: string)

  datatype Segment =
    | Said(tokens: seq<Token>)
    | Thought(open: string, tokens: seq<Token>, close: string)
    | ThoughtCut(open: string, tokens: seq<Token>, close: string)
    | Foreign(open: string, tokens: seq<Token>, close: string)
    | Called(wrapper: Wrapper, ending: Close)

  /** How a response breaks off. */
  datatype Tail = Whole | OpenThought(open: string, tokens: seq<Token>) | OpenCall(wrapper: Wrapper)

  // ----- the tokens

  function CallTokens(c: Call): seq<Token> {
    [Term(InvokePrefix, c.prefix)] + (c.name + ([Term(InvokeNameEnd, c.nameEnd)] + c.args))
  }

  function MoreTokens(more: seq<More>): seq<Token> {
    if more == [] then []
    else [Term(InvokeEnd, more[0].callEnd)] + (more[0].gap + (CallTokens(more[0].call) + MoreTokens(more[1..])))
  }

  function BeforeTokens(b: Before): seq<Token> {
    match b
    case FromText => []
    case FromThought(open, tokens) => [Term(ThinkStart, open)] + tokens
    case FromForeign(open, tokens) => [Term(ForeignStart, open)] + tokens
  }

  function WrapperTokens(w: Wrapper): seq<Token> {
    BeforeTokens(w.before) + ([Term(ToolStart, w.open)] + (w.gap + (CallTokens(w.call) + MoreTokens(w.more))))
  }

  function CloseTokens(c: Close): seq<Token> {
    match c
    case Closed(callEnd, gap, wrapEnd) => [Term(InvokeEnd, callEnd)] + (gap + [Term(ToolEnd, wrapEnd)])
    case Cut(wrapEnd) => [Term(ToolEnd, wrapEnd)]
  }

  function SegmentTokens(s: Segment): seq<Token> {
    match s
    case Said(tokens) => tokens
    case Thought(open, tokens, close) => [Term(ThinkStart, open)] + (tokens + [Term(ThinkEnd, close)])
    case ThoughtCut(open, tokens, close) => [Term(ThinkStart, open)] + (tokens + [Term(ToolStart, close)])
    case Foreign(open, tokens, close) => [Term(ForeignStart, open)] + (tokens + [Term(ForeignEnd, close)])
    case Called(wrapper, ending) => WrapperTokens(wrapper) + CloseTokens(ending)
  }

  function Tokens(segments: seq<Segment>): seq<Token> {
    if segments == [] then [] else SegmentTokens(segments[0]) + Tokens(segments[1..])
  }

  function TailTokens(t: Tail): seq<Token> {
    match t
    case Whole => []
    case OpenThought(open, tokens) => [Term(ThinkStart, open)] + tokens
    case OpenCall(wrapper) => WrapperTokens(wrapper)
  }

  // ----- where they may stand

  predicate CallFits(cfg: Config, c: Call) {
    Inside(cfg, InName, c.name) && Inside(cfg, InArgs, c.args)
  }

  predicate WrapperFits(cfg: Config, w: Wrapper) {
    && !cfg.skipToolParsing
    && (w.before.FromThought? ==> Inside(cfg, InThought, w.before.tokens))
    && (w.before.FromForeign? ==> Inside(cfg, InForeign, w.before.tokens))
    && Gap(w.gap) && CallFits(cfg, w.call)
    && forall i :: 0 <= i < |w.more| ==> Gap(w.more[i].gap) && CallFits(cfg, w.more[i].call)
  }

  predicate Fits(cfg: Config, s: Segment) {
    match s
    case Said(tokens) => Inside(cfg, InText, tokens)
    case Thought(_, tokens, _) => Inside(cfg, InThought, tokens)
    case ThoughtCut(_, tokens, _) => cfg.skipToolParsing && Inside(cfg, InThought, tokens)
    case Foreign(_, tokens, _) => Inside(cfg, InForeign, tokens)
    case Called(wrapper, ending) => WrapperFits(cfg, wrapper) && (ending.Closed? ==> Gap(ending.gap))
  }

  predicate AllFit(cfg: Config, segments: seq<Segment>) {
    forall i :: 0 <= i < |segments| ==> Fits(cfg, segments[i])
  }

  predicate TailFits(cfg: Config, t: Tail) {
    match t
    case Whole => true
    case OpenThought(_, tokens) => Inside(cfg, InThought, tokens)
    case OpenCall(wrapper) => WrapperFits(cfg, wrapper)
  }

  // ----- the events they become

  function CallTold(cfg: Config, c: Call, index: int): seq<Event> {
    [Event(ToolCallStart, c.prefix, index)] + (Told(cfg, InName, c.name, index) + Told(cfg, InArgs, c.args, index))
  }

  function MoreTold(cfg: Config, more: seq<More>, index: int): seq<Event> {
    if more == [] then []
    else
      [Event(ToolCallEnd, more[0].callEnd, index)]
      + (CallTold(cfg, more[0].call, index + 1) + MoreTold(cfg, more[1..], index + 1))
  }

  /** A marker of a foreign block is text, unless it is empty. */
  function Marker(value: string, index: int): seq<Event> {
    if value == "" then [] else [Event(TextChunk, value, index)]
  }

  function BeforeTold(cfg: Config, b: Before, open: string, index: int): seq<Event> {
    match b
    case FromText => []
    case FromThought(start, tokens) =>
      [Event(ReasoningStart, start, index)]
      + (Told(cfg, InThought, tokens, index) + [Event(ReasoningEnd, open, index)])
    case FromForeign(start, tokens) => Marker(start, index) + Told(cfg, InForeign, tokens, index)
  }

  function WrapperTold(cfg: Config, w: Wrapper, index: int): seq<Event> {
    BeforeTold(cfg, w.before, w.open, index)
    + (CallTold(cfg, w.call, index + 1) + MoreTold(cfg, w.more, index + 1))
  }

  /** The number of the wrapper's last call, when `index` is that of the last call before it. */
  function LastCall(w: Wrapper, index: int): int {
    index + 1 + |w.more|
  }

  function CloseTold(c: Close, index: int): seq<Event> {
    [Event(ToolCallEnd, if c.Closed? then c.callEnd else c.wrapEnd, index)]
  }

  function SegmentTold(cfg: Config, s: Segment, index: int): seq<Event> {
    match s
    case Said(tokens) => Told(cfg, InText, tokens, index)
    case Thought(open, tokens, close) =>
      [Event(ReasoningStart, open, index)]
      + (Told(cfg, InThought, tokens, index) + [Event(ReasoningEnd, close, index)])
    case ThoughtCut(open, tokens, close) =>
      [Event(ReasoningStart, open, index)]
      + (Told(cfg, InThought, tokens, index) + [Event(ReasoningEnd, close, index), Event(TextChunk, close, index)])
    case Foreign(open, tokens, close) =>
      Marker(open, index) + (Told(cfg, InForeign, tokens, index) + Marker(close, index))
    case Called(wrapper, ending) => WrapperTold(cfg, wrapper, index) + CloseTold(ending, LastCall(wrapper, index))
  }

  function IndexAfter(s: Segment, index: int): int {
    if s.Called? then LastCall(s.wrapper, index) else index
  }

  function AllTold(cfg: Config, segments: seq<Segment>, index: int): seq<Event> {
    if segments == [] then []
    else SegmentTold(cfg, segments[0], index) + AllTold(cfg, segments[1..], IndexAfter(segments[0], index))
  }

  function LastIndex(segments: seq<Segment>, index: int): int {
    if segments == [] then index else LastIndex(segments[1..], IndexAfter(segments[0], index))
  }

  /** What breaks off is told as far as it goes, and ended. */
  function TailTold(cfg: Config, t: Tail, index: int): seq<Event> {
    match t
    case Whole => []
    case OpenThought(open, tokens) =>
      [Event(ReasoningStart, open, index)] + (Told(cfg, InThought, tokens, index) + [Event(ReasoningEnd, "", index)])
    case OpenCall(wrapper) =>
      WrapperTold(cfg, wrapper, index) + [Event(ToolCallEnd, "", LastCall(wrapper, index))]
  }

  // ----- the engine tells just that

  /** The engine is in this state, with this call the last one started and nothing held back. */
  predicate At(e: Engine, s: ParserState, index: int) {
    e.state == s && e.toolIndex == index && !e.holding && !e.recovered
  }

  function StateOf(place: Place): ParserState {
    match place
    case InText => Content
    case InThought => Reasoning
    case InForeign => ForeignBlock
    case InName => ToolName
    case InArgs => ToolArgs
  }

  /** From any engine at one state, these tokens lead to another with these events. */
  ghost predicate Leads(cfg: Config, from: ParserState, index: int, tokens: seq<Token>, events: seq<Event>,
                        to: ParserState, last: int) {
    forall e: Engine :: At(e, from, index) ==>
      At(Run(cfg, e, tokens).0, to, last) && Run(cfg, e, tokens).1 == events
  }

  lemma LeadsNowhere(cfg: Config, s: ParserState, index: int)
    ensures Leads(cfg, s, index, [], [], s, index)
  {
  }

  lemma LeadsOn(cfg: Config, s: ParserState, index: int, tokens: seq<Token>, events: seq<Event>, mid: ParserState,
                next: int, more: seq<Token>, rest: seq<Event>, to: ParserState, last: int)
    requires Leads(cfg, s, index, tokens, events, mid, next) && Leads(cfg, mid, next, more, rest, to, last)
    ensures Leads(cfg, s, index, tokens + more, events + rest, to, last)
  {
    hide Run, At;
    forall e: Engine | At(e, s, index)
      ensures At(Run(cfg, e, tokens + more).0, to, last) && Run(cfg, e, tokens + more).1 == events + rest
    {
      RunConcat(cfg, e, tokens, more);
    }
  }

  /** What one token does to such an engine. */
  ghost predicate Does(cfg: Config, s: ParserState, index: int, tok: Token, events: seq<Event>, to: ParserState,
                       last: int) {
    forall e: Engine :: At(e, s, index) ==> At(OnToken(cfg, e, tok).0, to, last) && OnToken(cfg, e, tok).1 == events
  }

  lemma LeadsOne(cfg: Config, s: ParserState, index: int, tok: Token, events: seq<Event>, to: ParserState, last: int)
    requires Does(cfg, s, index, tok, events, to, last)
    ensures Leads(cfg, s, index, [tok], events, to, last)
  {
    hide OnToken, At;
    assert [tok][1..] == [];
    assert events + [] == events;
    forall e: Engine ensures Run(cfg, e, [tok]) == OnToken(cfg, e, tok) {
      assert Run(cfg, OnToken(cfg, e, tok).0, []) == (OnToken(cfg, e, tok).0, []);
      assert OnToken(cfg, e, tok).1 + [] == OnToken(cfg, e, tok).1;
    }
  }

  lemma NoEvents(value: string, index: int)
    ensures TransitionEvents([], value, index) == (index, [])
  {
  }

  /** The events of a transition that has one kind. */
  lemma OneEvent(kind: EventType, value: string, index: int)
    ensures var next := if kind.ToolCallStart? then index + 1 else index;
            TransitionEvents([kind], value, index) ==
              (next, if kind.TextChunk? && value == "" then [] else [Event(kind, value, next)])
  {
    assert [kind][1..] == [];
    var next := if kind.ToolCallStart? then index + 1 else index;
    NoEvents(value, next);
    assert [Event(kind, value, next)] + [] == [Event(kind, value, next)];
  }

  lemma InsideText(cfg: Config, place: Place, value: string, index: int)
    ensures Does(cfg, StateOf(place), index, Text(value),
                 if value == "" then [] else [Event(KindOf(place), value, index)], StateOf(place), index)
  {
  }

  lemma InsideTerm(cfg: Config, place: Place, t: Terminal, value: string, index: int)
    requires !Marks(cfg, place, t)
    ensures Does(cfg, StateOf(place), index, Term(t, value),
                 if Silent(cfg, place, Term(t, value)) then [] else [Event(KindOf(place), value, index)],
                 StateOf(place), index)
  {
    NoEvents(value, index);
  }

  lemma InsideOne(cfg: Config, place: Place, tok: Token, index: int)
    requires tok.Term? ==> !Marks(cfg, place, tok.terminal)
    ensures Does(cfg, StateOf(place), index, tok,
                 if Silent(cfg, place, tok) then [] else [Event(KindOf(place), tok.value, index)],
                 StateOf(place), index)
  {
    hide Does, Marks;
    match tok {
      case Text(value) => InsideText(cfg, place, value, index);
      case Term(t, value) => InsideTerm(cfg, place, t, value, index);
    }
  }

  lemma {:induction false} InsideTold(cfg: Config, place: Place, tokens: seq<Token>, index: int)
    requires Inside(cfg, place, tokens)
    ensures Leads(cfg, StateOf(place), index, tokens, Told(cfg, place, tokens, index), StateOf(place), index)
    decreases |tokens|
  {
    hide Leads, Does, Marks, Silent;
    if tokens == [] {
      LeadsNowhere(cfg, StateOf(place), index);
    } else {
      var tok := tokens[0];
      var first := if Silent(cfg, place, tok) then [] else [Event(KindOf(place), tok.value, index)];
      InsideOne(cfg, place, tok, index);
      LeadsOne(cfg, StateOf(place), index, tok, first, StateOf(place), index);
      InsideTold(cfg, place, tokens[1..], index);
      LeadsOn(cfg, StateOf(place), index, [tok], first, StateOf(place), index, tokens[1..],
              Told(cfg, place, tokens[1..], index), StateOf(place), index);
      assert [tok] + tokens[1..] == tokens;
      assert Told(cfg, place, tokens, index) == first + Told(cfg, place, tokens[1..], index);
    }
  }

  lemma GapOne(cfg: Config, s: ParserState, tok: Token, index: int)
    requires s.ToolPreamble? || s.ToolBetween?
    requires !cfg.skipToolParsing
    requires tok.Term? ==> !tok.terminal.InvokePrefix? && !tok.terminal.ToolEnd?
    ensures Does(cfg, s, index, tok, [], s, index)
  {
  }

  lemma {:induction false} GapTold(cfg: Config, s: ParserState, tokens: seq<Token>, index: int)
    requires s.ToolPreamble? || s.ToolBetween?
    requires !cfg.skipToolParsing && Gap(tokens)
    ensures Leads(cfg, s, index, tokens, [], s, index)
    decreases |tokens|
  {
    hide Leads, Does;
    if tokens == [] {
      LeadsNowhere(cfg, s, index);
    } else {
      GapOne(cfg, s, tokens[0], index);
      LeadsOne(cfg, s, index, tokens[0], [], s, index);
      GapTold(cfg, s, tokens[1..], index);
      var none: seq<Event> := [];
      LeadsOn(cfg, s, index, [tokens[0]], none, s, index, tokens[1..], none, s, index);
      assert [tokens[0]] + tokens[1..] == tokens && none + none == none;
    }
  }

  // ----- the markers

  lemma ThoughtBegins(cfg: Config, value: string, index: int)
    ensures Leads(cfg, Content, index, [Term(ThinkStart, value)], [Event(ReasoningStart, value, index)],
                  Reasoning, index)
  {
    OneEvent(ReasoningStart, value, index);
    assert Does(cfg, Content, index, Term(ThinkStart, value), [Event(ReasoningStart, value, index)], Reasoning, index);
    hide Does, Leads;
    LeadsOne(cfg, Content, index, Term(ThinkStart, value), [Event(ReasoningStart, value, index)], Reasoning, index);
  }

  lemma ThoughtEnds(cfg: Config, value: string, index: int)
    ensures Leads(cfg, Reasoning, index, [Term(ThinkEnd, value)], [Event(ReasoningEnd, value, index)], Content, index)
  {
    OneEvent(ReasoningEnd, value, index);
    assert Does(cfg, Reasoning, index, Term(ThinkEnd, value), [Event(ReasoningEnd, value, index)], Content, index);
    hide Does, Leads;
    LeadsOne(cfg, Reasoning, index, Term(ThinkEnd, value), [Event(ReasoningEnd, value, index)], Content, index);
  }

  lemma ThoughtIsCut(cfg: Config, value: string, index: int)
    requires cfg.skipToolParsing
    ensures Leads(cfg, Reasoning, index, [Term(ToolStart, value)],
                  [Event(ReasoningEnd, value, index), Event(TextChunk, value, index)], Content, index)
  {
    var events := [Event(ReasoningEnd, value, index), Event(TextChunk, value, index)];
    assert ReasoningEnd in [ReasoningEnd];
    assert Does(cfg, Reasoning, index, Term(ToolStart, value), events, Content, index);
    hide Does, Leads;
    LeadsOne(cfg, Reasoning, index, Term(ToolStart, value), events, Content, index);
  }

  lemma ForeignBegins(cfg: Config, value: string, index: int)
    ensures Leads(cfg, Content, index, [Term(ForeignStart, value)], Marker(value, index), ForeignBlock, index)
  {
    OneEvent(TextChunk, value, index);
    assert Does(cfg, Content, index, Term(ForeignStart, value), Marker(value, index), ForeignBlock, index);
    hide Does, Leads;
    LeadsOne(cfg, Content, index, Term(ForeignStart, value), Marker(value, index), ForeignBlock, index);
  }

  lemma ForeignEnds(cfg: Config, value: string, index: int)
    ensures Leads(cfg, ForeignBlock, index, [Term(ForeignEnd, value)], Marker(value, index), Content, index)
  {
    OneEvent(TextChunk, value, index);
    assert Does(cfg, ForeignBlock, index, Term(ForeignEnd, value), Marker(value, index), Content, index);
    hide Does, Leads;
    LeadsOne(cfg, ForeignBlock, index, Term(ForeignEnd, value), Marker(value, index), Content, index);
  }

  /** A wrapper opens in text, in a foreign block, or in a thought, which it ends. */
  lemma WrapperOpens(cfg: Config, s: ParserState, value: string, index: int)
    requires !cfg.skipToolParsing && (s.Content? || s.ForeignBlock? || s.Reasoning?)
    ensures Leads(cfg, s, index, [Term(ToolStart, value)],
                  if s.Reasoning? then [Event(ReasoningEnd, value, index)] else [], ToolPreamble, index)
  {
    OneEvent(ReasoningEnd, value, index);
    NoEvents(value, index);
    var events := if s.Reasoning? then [Event(ReasoningEnd, value, index)] else [];
    assert Does(cfg, s, index, Term(ToolStart, value), events, ToolPreamble, index);
    hide Does, Leads;
    LeadsOne(cfg, s, index, Term(ToolStart, value), events, ToolPreamble, index);
  }

  lemma CallBegins(cfg: Config, s: ParserState, value: string, index: int)
    requires !cfg.skipToolParsing && (s.ToolPreamble? || s.ToolBetween?)
    ensures Leads(cfg, s, index, [Term(InvokePrefix, value)], [Event(ToolCallStart, value, index + 1)],
                  ToolName, index + 1)
  {
    OneEvent(ToolCallStart, value, index);
    var events := [Event(ToolCallStart, value, index + 1)];
    assert Does(cfg, s, index, Term(InvokePrefix, value), events, ToolName, index + 1);
    hide Does, Leads;
    LeadsOne(cfg, s, index, Term(InvokePrefix, value), events, ToolName, index + 1);
  }

  lemma NameEnds(cfg: Config, value: string, index: int)
    requires !cfg.skipToolParsing
    ensures Leads(cfg, ToolName, index, [Term(InvokeNameEnd, value)], [], ToolArgs, index)
  {
    NoEvents(value, index);
    assert Does(cfg, ToolName, index, Term(InvokeNameEnd, value), [], ToolArgs, index);
    hide Does, Leads;
    LeadsOne(cfg, ToolName, index, Term(InvokeNameEnd, value), [], ToolArgs, index);
  }

  lemma CallEnds(cfg: Config, value: string, index: int)
    requires !cfg.skipToolParsing
    ensures Leads(cfg, ToolArgs, index, [Term(InvokeEnd, value)], [Event(ToolCallEnd, value, index)],
                  ToolBetween, index)
    ensures Leads(cfg, ToolArgs, index, [Term(ToolEnd, value)], [Event(ToolCallEnd, value, index)], Content, index)
  {
    OneEvent(ToolCallEnd, value, index);
    var events := [Event(ToolCallEnd, value, index)];
    assert Does(cfg, ToolArgs, index, Term(InvokeEnd, value), events, ToolBetween, index);
    assert Does(cfg, ToolArgs, index, Term(ToolEnd, value), events, Content, index);
    hide Does, Leads;
    LeadsOne(cfg, ToolArgs, index, Term(InvokeEnd, value), events, ToolBetween, index);
    LeadsOne(cfg, ToolArgs, index, Term(ToolEnd, value), events, Content, index);
  }

  lemma WrapperEnds(cfg: Config, value: string, index: int)
    requires !cfg.skipToolParsing
    ensures Leads(cfg, ToolBetween, index, [Term(ToolEnd, value)], [], Content, index)
  {
    NoEvents(value, index);
    assert Does(cfg, ToolBetween, index, Term(ToolEnd, value), [], Content, index);
    hide Does, Leads;
    LeadsOne(cfg, ToolBetween, index, Term(ToolEnd, value), [], Content, index);
  }

  // ----- the parts

  lemma CallLeads(cfg: Config, s: ParserState, c: Call, index: int)
    requires !cfg.skipToolParsing && (s.ToolPreamble? || s.ToolBetween?) && CallFits(cfg, c)
    ensures Leads(cfg, s, index, CallTokens(c), CallTold(cfg, c, index + 1), ToolArgs, index + 1)
  {
    hide Leads, Told;
    var i := index + 1;
    var names, args := Told(cfg, InName, c.name, i), Told(cfg, InArgs, c.args, i);
    CallBegins(cfg, s, c.prefix, index);
    InsideTold(cfg, InName, c.name, i);
    NameEnds(cfg, c.nameEnd, i);
    InsideTold(cfg, InArgs, c.args, i);
    LeadsOn(cfg, ToolName, i, [Term(InvokeNameEnd, c.nameEnd)], [], ToolArgs, i, c.args, args, ToolArgs, i);
    assert [] + args == args;
    LeadsOn(cfg, ToolName, i, c.name, names, ToolName, i, [Term(InvokeNameEnd, c.nameEnd)] + c.args, args, ToolArgs, i);
    LeadsOn(cfg, s, index, [Term(InvokePrefix, c.prefix)], [Event(ToolCallStart, c.prefix, i)], ToolName, i,
            c.name + ([Term(InvokeNameEnd, c.nameEnd)] + c.args), names + args, ToolArgs, i);
  }

  predicate MoreFit(cfg: Config, more: seq<More>) {
    forall i :: 0 <= i < |more| ==> Gap(more[i].gap) && CallFits(cfg, more[i].call)
  }

  lemma {:induction false} MoreLead(cfg: Config, more: seq<More>, index: int)
    requires !cfg.skipToolParsing && MoreFit(cfg, more)
    ensures Leads(cfg, ToolArgs, index, MoreTokens(more), MoreTold(cfg, more, index), ToolArgs, index + |more|)
    decreases |more|
  {
    hide Leads, CallTokens, CallTold, CallFits, Gap;
    if more == [] {
      LeadsNowhere(cfg, ToolArgs, index);
    } else {
      var m, next := more[0], index + 1;
      assert MoreFit(cfg, more[1..]);
      CallEnds(cfg, m.callEnd, index);
      GapTold(cfg, ToolBetween, m.gap, index);
      CallLeads(cfg, ToolBetween, m.call, index);
      MoreLead(cfg, more[1..], next);
      var tokens, told := MoreTokens(more[1..]), MoreTold(cfg, more[1..], next);
      LeadsOn(cfg, ToolBetween, index, CallTokens(m.call), CallTold(cfg, m.call, next), ToolArgs, next, tokens, told,
              ToolArgs, index + |more|);
      var rest := CallTold(cfg, m.call, next) + told;
      LeadsOn(cfg, ToolBetween, index, m.gap, [], ToolBetween, index, CallTokens(m.call) + tokens, rest,
              ToolArgs, index + |more|);
      assert [] + rest == rest;
      LeadsOn(cfg, ToolArgs, index, [Term(InvokeEnd, m.callEnd)], [Event(ToolCallEnd, m.callEnd, index)], ToolBetween,
              index, m.gap + (CallTokens(m.call) + tokens), rest, ToolArgs, index + |more|);
    }
  }

  /** What a wrapper follows, up to its opening. */
  lemma BeforeLeads(cfg: Config, w: Wrapper, index: int)
    requires WrapperFits(cfg, w)
    ensures Leads(cfg, Content, index, BeforeTokens(w.before) + [Term(ToolStart, w.open)],
                  BeforeTold(cfg, w.before, w.open, index), ToolPreamble, index)
  {
    hide Leads, Told, CallFits, Gap;
    match w.before {
      case FromText =>
        WrapperOpens(cfg, Content, w.open, index);
        assert [] + [Term(ToolStart, w.open)] == [Term(ToolStart, w.open)];
      case FromThought(open, tokens) =>
        var told := Told(cfg, InThought, tokens, index);
        ThoughtBegins(cfg, open, index);
        InsideTold(cfg, InThought, tokens, index);
        WrapperOpens(cfg, Reasoning, w.open, index);
        LeadsOn(cfg, Reasoning, index, tokens, told, Reasoning, index, [Term(ToolStart, w.open)],
                [Event(ReasoningEnd, w.open, index)], ToolPreamble, index);
        LeadsOn(cfg, Content, index, [Term(ThinkStart, open)], [Event(ReasoningStart, open, index)], Reasoning, index,
                tokens + [Term(ToolStart, w.open)], told + [Event(ReasoningEnd, w.open, index)], ToolPreamble, index);
        assert [Term(ThinkStart, open)] + (tokens + [Term(ToolStart, w.open)]) ==
            [Term(ThinkStart, open)] + tokens + [Term(ToolStart, w.open)];
      case FromForeign(open, tokens) =>
        var told := Told(cfg, InForeign, tokens, index);
        ForeignBegins(cfg, open, index);
        InsideTold(cfg, InForeign, tokens, index);
        WrapperOpens(cfg, ForeignBlock, w.open, index);
        LeadsOn(cfg, ForeignBlock, index, tokens, told, ForeignBlock, index, [Term(ToolStart, w.open)], [],
                ToolPreamble, index);
        assert told + [] == told;
        LeadsOn(cfg, Content, index, [Term(ForeignStart, open)], Marker(open, index), ForeignBlock, index,
                tokens + [Term(ToolStart, w.open)], told, ToolPreamble, index);
        assert [Term(ForeignStart, open)] + (tokens + [Term(ToolStart, w.open)]) ==
            [Term(ForeignStart, open)] + tokens + [Term(ToolStart, w.open)];
    }
  }

  lemma WrapperLeads(cfg: Config, w: Wrapper, index: int)
    requires WrapperFits(cfg, w)
    ensures Leads(cfg, Content, index, WrapperTokens(w), WrapperTold(cfg, w, index), ToolArgs, LastCall(w, index))
  {
    hide Leads, CallTokens, CallTold, BeforeTokens, BeforeTold, MoreTokens, MoreTold, CallFits, Gap, Inside;
    var next, last := index + 1, LastCall(w, index);
    assert MoreFit(cfg, w.more);
    BeforeLeads(cfg, w, index);
    GapTold(cfg, ToolPreamble, w.gap, index);
    CallLeads(cfg, ToolPreamble, w.call, index);
    MoreLead(cfg, w.more, next);
    var tokens := CallTokens(w.call) + MoreTokens(w.more);
    var told := CallTold(cfg, w.call, next) + MoreTold(cfg, w.more, next);
    LeadsOn(cfg, ToolPreamble, index, CallTokens(w.call), CallTold(cfg, w.call, next), ToolArgs, next,
            MoreTokens(w.more), MoreTold(cfg, w.more, next), ToolArgs, last);
    LeadsOn(cfg, ToolPreamble, index, w.gap, [], ToolPreamble, index, tokens, told, ToolArgs, last);
    assert [] + told == told;
    LeadsOn(cfg, Content, index, BeforeTokens(w.before) + [Term(ToolStart, w.open)],
            BeforeTold(cfg, w.before, w.open, index), ToolPreamble, index, w.gap + tokens, told, ToolArgs, last);
    Regroup(BeforeTokens(w.before), [Term(ToolStart, w.open)], w.gap + tokens);
  }

  lemma Regroup<T>(a: seq<T>, b: seq<T>, c: seq<T>)
    ensures a + b + c == a + (b + c)
  {
  }

  lemma CloseLeads(cfg: Config, c: Close, index: int)
    requires !cfg.skipToolParsing && (c.Closed? ==> Gap(c.gap))
    ensures Leads(cfg, ToolArgs, index, CloseTokens(c), CloseTold(c, index), Content, index)
  {
    hide Leads, Gap;
    match c {
      case Closed(callEnd, gap, wrapEnd) =>
        var none: seq<Event> := [];
        CallEnds(cfg, callEnd, index);
        GapTold(cfg, ToolBetween, gap, index);
        WrapperEnds(cfg, wrapEnd, index);
        LeadsOn(cfg, ToolBetween, index, gap, none, ToolBetween, index, [Term(ToolEnd, wrapEnd)], none, Content, index);
        assert none + none == none;
        var end := [Event(ToolCallEnd, callEnd, index)];
        LeadsOn(cfg, ToolArgs, index, [Term(InvokeEnd, callEnd)], end, ToolBetween, index,
                gap + [Term(ToolEnd, wrapEnd)], none, Content, index);
        assert end + none == end;
      case Cut(wrapEnd) => CallEnds(cfg, wrapEnd, index);
    }
  }

  lemma ThoughtLeads(cfg: Config, open: string, tokens: seq<Token>, index: int)
    requires Inside(cfg, InThought, tokens)
    ensures Leads(cfg, Content, index, [Term(ThinkStart, open)] + tokens,
                  [Event(ReasoningStart, open, index)] + Told(cfg, InThought, tokens, index), Reasoning, index)
  {
    hide Leads, Told, Inside;
    ThoughtBegins(cfg, open, index);
    InsideTold(cfg, InThought, tokens, index);
    LeadsOn(cfg, Content, index, [Term(ThinkStart, open)], [Event(ReasoningStart, open, index)], Reasoning, index,
            tokens, Told(cfg, InThought, tokens, index), Reasoning, index);
  }

  /** A part that begins with a thought. */
  lemma ThoughtPart(cfg: Config, open: string, tokens: seq<Token>, end: Token, events: seq<Event>, index: int)
    requires Inside(cfg, InThought, tokens) && Leads(cfg, Reasoning, index, [end], events, Content, index)
    ensures Leads(cfg, Content, index, [Term(ThinkStart, open)] + (tokens + [end]),
                  [Event(ReasoningStart, open, index)] + (Told(cfg, InThought, tokens, index) + events), Content, index)
  {
    hide Leads, Told, Inside;
    var first, told := [Event(ReasoningStart, open, index)], Told(cfg, InThought, tokens, index);
    ThoughtLeads(cfg, open, tokens, index);
    LeadsOn(cfg, Content, index, [Term(ThinkStart, open)] + tokens, first + told, Reasoning, index, [end], events,
            Content, index);
    Regroup([Term(ThinkStart, open)], tokens, [end]);
    Regroup(first, told, events);
  }

  lemma ForeignPart(cfg: Config, open: string, tokens: seq<Token>, close: string, index: int)
    requires Inside(cfg, InForeign, tokens)
    ensures Leads(cfg, Content, index, [Term(ForeignStart, open)] + (tokens + [Term(ForeignEnd, close)]),
                  Marker(open, index) + (Told(cfg, InForeign, tokens, index) + Marker(close, index)), Content, index)
  {
    hide Leads, Told, Inside, Marker;
    var told := Told(cfg, InForeign, tokens, index);
    ForeignBegins(cfg, open, index);
    InsideTold(cfg, InForeign, tokens, index);
    ForeignEnds(cfg, close, index);
    LeadsOn(cfg, ForeignBlock, index, tokens, told, ForeignBlock, index, [Term(ForeignEnd, close)],
            Marker(close, index), Content, index);
    LeadsOn(cfg, Content, index, [Term(ForeignStart, open)], Marker(open, index), ForeignBlock, index,
            tokens + [Term(ForeignEnd, close)], told + Marker(close, index), Content, index);
  }

  lemma SegmentLeads(cfg: Config, s: Segment, index: int)
    requires Fits(cfg, s)
    ensures Leads(cfg, Content, index, SegmentTokens(s), SegmentTold(cfg, s, index), Content, IndexAfter(s, index))
  {
    hide Leads, Told, Inside, WrapperTokens, WrapperTold, WrapperFits, CloseTokens, CloseTold, Marker;
    match s {
      case Said(tokens) => InsideTold(cfg, InText, tokens, index);
      case Thought(open, tokens, close) =>
        ThoughtEnds(cfg, close, index);
        ThoughtPart(cfg, open, tokens, Term(ThinkEnd, close), [Event(ReasoningEnd, close, index)], index);
      case ThoughtCut(open, tokens, close) =>
        ThoughtIsCut(cfg, close, index);
        ThoughtPart(cfg, open, tokens, Term(ToolStart, close),
                    [Event(ReasoningEnd, close, index), Event(TextChunk, close, index)], index);
      case Foreign(open, tokens, close) => ForeignPart(cfg, open, tokens, close, index);
      case Called(w, ending) => CalledLeads(cfg, w, ending, index);
    }
  }

  lemma CalledLeads(cfg: Config, w: Wrapper, ending: Close, index: int)
    requires WrapperFits(cfg, w) && (ending.Closed? ==> Gap(ending.gap))
    ensures Leads(cfg, Content, index, WrapperTokens(w) + CloseTokens(ending),
                  WrapperTold(cfg, w, index) + CloseTold(ending, LastCall(w, index)), Content, LastCall(w, index))
  {
    WrapperLeads(cfg, w, index);
    CloseLeads(cfg, ending, LastCall(w, index));
    LeadsOn(cfg, Content, index, WrapperTokens(w), WrapperTold(cfg, w, index), ToolArgs, LastCall(w, index),
            CloseTokens(ending), CloseTold(ending, LastCall(w, index)), Content, LastCall(w, index));
  }

  lemma {:induction false} SegmentsLead(cfg: Config, segments: seq<Segment>, index: int)
    requires AllFit(cfg, segments)
    ensures Leads(cfg, Content, index, Tokens(segments), AllTold(cfg, segments, index),
                  Content, LastIndex(segments, index))
    decreases |segments|
  {
    hide Leads, Fits, SegmentTokens, SegmentTold, IndexAfter;
    if segments == [] {
      LeadsNowhere(cfg, Content, index);
    } else {
      var s := segments[0];
      SegmentLeads(cfg, s, index);
      SegmentsLead(cfg, segments[1..], IndexAfter(s, index));
      LeadsOn(cfg, Content, index, SegmentTokens(s), SegmentTold(cfg, s, index), Content, IndexAfter(s, index),
              Tokens(segments[1..]), AllTold(cfg, segments[1..], IndexAfter(s, index)),
              Content, LastIndex(segments, index));
    }
  }

  // ----- whole responses

  /** A thought that the response starts in, its opening marker being part of the prompt. */
  datatype Opening = Opening(tokens: seq<Token>, close: string)

  datatype Response = Response(opening: Option<Opening>, segments: seq<Segment>, tail: Tail)

  predicate ResponseFits(cfg: Config, r: Response) {
    && (r.opening.Some? ==> Inside(cfg, InThought, r.opening.value.tokens))
    && AllFit(cfg, r.segments) && TailFits(cfg, r.tail)
  }

  function OpeningTokens(o: Option<Opening>): seq<Token> {
    if o.Some? then o.value.tokens + [Term(ThinkEnd, o.value.close)] else []
  }

  function ResponseTokens(r: Response): seq<Token> {
    OpeningTokens(r.opening) + (Tokens(r.segments) + TailTokens(r.tail))
  }

  function OpeningTold(cfg: Config, o: Option<Opening>): seq<Event> {
    if o.Some? then Told(cfg, InThought, o.value.tokens, -1) + [Event(ReasoningEnd, o.value.close, -1)] else []
  }

  function ResponseTold(cfg: Config, r: Response): seq<Event> {
    OpeningTold(cfg, r.opening)
    + (AllTold(cfg, r.segments, -1) + TailTold(cfg, r.tail, LastIndex(r.segments, -1)))
  }

  function StartOf(r: Response): ParserState {
    if r.opening.Some? then Reasoning else Content
  }

  lemma {:induction false} LastIndexGrows(segments: seq<Segment>, index: int)
    ensures LastIndex(segments, index) >= index
    decreases |segments|
  {
    if segments != [] {
      LastIndexGrows(segments[1..], IndexAfter(segments[0], index));
    }
  }

  lemma OpeningLeads(cfg: Config, r: Response)
    requires ResponseFits(cfg, r)
    ensures Leads(cfg, StartOf(r), -1, OpeningTokens(r.opening), OpeningTold(cfg, r.opening), Content, -1)
  {
    hide Leads, Told, Inside, AllFit, TailFits;
    match r.opening {
      case None => LeadsNowhere(cfg, Content, -1);
      case Some(o) =>
        InsideTold(cfg, InThought, o.tokens, -1);
        ThoughtEnds(cfg, o.close, -1);
        LeadsOn(cfg, Reasoning, -1, o.tokens, Told(cfg, InThought, o.tokens, -1), Reasoning, -1,
                [Term(ThinkEnd, o.close)], [Event(ReasoningEnd, o.close, -1)], Content, -1);
    }
  }

  /** Where a response breaks off, and what it has told by then. */
  function TailState(t: Tail): ParserState {
    match t
    case Whole => Content
    case OpenThought(_, _) => Reasoning
    case OpenCall(_) => ToolArgs
  }

  function TailIndex(t: Tail, index: int): int {
    if t.OpenCall? then LastCall(t.wrapper, index) else index
  }

  function TailSoFar(cfg: Config, t: Tail, index: int): seq<Event> {
    match t
    case Whole => []
    case OpenThought(open, tokens) => [Event(ReasoningStart, open, index)] + Told(cfg, InThought, tokens, index)
    case OpenCall(w) => WrapperTold(cfg, w, index)
  }

  /** What the end of the stream adds. */
  function TailEnd(t: Tail, index: int): seq<Event> {
    match t
    case Whole => []
    case OpenThought(_, _) => [Event(ReasoningEnd, "", index)]
    case OpenCall(w) => [Event(ToolCallEnd, "", LastCall(w, index))]
  }

  lemma TailLeads(cfg: Config, t: Tail, index: int)
    requires TailFits(cfg, t)
    ensures Leads(cfg, Content, index, TailTokens(t), TailSoFar(cfg, t, index), TailState(t), TailIndex(t, index))
    ensures TailTold(cfg, t, index) == TailSoFar(cfg, t, index) + TailEnd(t, index)
  {
    hide Leads, Told, Inside, WrapperFits, WrapperTold, WrapperTokens;
    match t {
      case Whole => LeadsNowhere(cfg, Content, index);
      case OpenThought(open, tokens) =>
        ThoughtLeads(cfg, open, tokens, index);
        Regroup([Event(ReasoningStart, open, index)], Told(cfg, InThought, tokens, index),
                [Event(ReasoningEnd, "", index)]);
      case OpenCall(w) => WrapperLeads(cfg, w, index);
    }
  }

  lemma EndTold(e: Engine, t: Tail, index: int)
    requires At(e, TailState(t), TailIndex(t, index)) && index >= -1
    ensures Finish(e).1 == TailEnd(t, index)
  {
    assert forall events: seq<Event> :: [] + events == events;
  }

  /** A whole response is told part by part, in order, with nothing added, lost or changed: text, thoughts between
      their start and end, foreign blocks with their markers, and each wrapped call as one start, the chunks of its
      name, the chunks of its arguments and one end, numbered in order; what breaks off is ended. */
  lemma ResponseIsTold(cfg: Config, r: Response)
    requires ResponseFits(cfg, r)
    ensures ParseComplete(cfg, StartOf(r), ResponseTokens(r)).1 == ResponseTold(cfg, r)
  {
    hide Run, Finish, Told, Inside, TailFits, AllFit, Tokens, AllTold, TailTokens, TailTold, LastIndex, OpeningTokens,
         OpeningTold, At, TailSoFar, TailEnd, TailState, TailIndex;
    var last, start := LastIndex(r.segments, -1), Initial(StartOf(r));
    LastIndexGrows(r.segments, -1);
    OpeningLeads(cfg, r);
    SegmentsLead(cfg, r.segments, -1);
    TailLeads(cfg, r.tail, last);
    var segments, tail := AllTold(cfg, r.segments, -1), TailSoFar(cfg, r.tail, last);
    LeadsOn(cfg, Content, -1, Tokens(r.segments), segments, Content, last, TailTokens(r.tail), tail,
            TailState(r.tail), TailIndex(r.tail, last));
    LeadsOn(cfg, StartOf(r), -1, OpeningTokens(r.opening), OpeningTold(cfg, r.opening), Content, -1,
            Tokens(r.segments) + TailTokens(r.tail), segments + tail, TailState(r.tail), TailIndex(r.tail, last));
    AtStart(StartOf(r));
    EndTold(Run(cfg, start, ResponseTokens(r)).0, r.tail, last);
    Regroup(OpeningTold(cfg, r.opening), segments + tail, TailEnd(r.tail, last));
    Regroup(segments, tail, TailEnd(r.tail, last));
  }

  lemma AtStart(s: ParserState)
    ensures At(Initial(s), s, -1)
  {
  }

  // ----- what a client makes of the events

  datatype HeardCall = HeardCall(name: string, args: string, ended: bool)

  datatype Heard = Heard(text: string, thought: string, calls: seq<HeardCall>)

  /** More is heard of a call. */
  function Heeded(h: Heard, index: int, name: string, args: string, ended: bool): Heard {
    if 0 <= index < |h.calls| then
      var c := h.calls[index];
      h.(calls := h.calls[index := HeardCall(c.name + name, c.args + args, c.ended || ended)])
    else h
  }

  function Hear(h: Heard, ev: Event): Heard {
    match ev.kind
    case TextChunk => h.(text := h.text + ev.value)
    case ReasoningChunk => h.(thought := h.thought + ev.value)
    case ToolCallStart => h.(calls := h.calls + [HeardCall("", "", false)])
    case ToolNameChunk => Heeded(h, ev.toolIndex, ev.value, "", false)
    case ArgValueChunk => Heeded(h, ev.toolIndex, "", ev.value, false)
    case ToolCallEnd => Heeded(h, ev.toolIndex, "", "", true)
    case _ => h
  }

  function HearAll(h: Heard, events: seq<Event>): Heard
    decreases |events|
  {
    if events == [] then h else HearAll(Hear(h, events[0]), events[1..])
  }

  lemma {:induction false} HearBoth(h: Heard, a: seq<Event>, b: seq<Event>)
    ensures HearAll(h, a + b) == HearAll(HearAll(h, a), b)
    decreases |a|
  {
    hide Hear;
    if a == [] {
      assert a + b == b;
    } else {
      assert (a + b)[1..] == a[1..] + b;
      HearBoth(Hear(h, a[0]), a[1..], b);
    }
  }

  lemma HearOne(h: Heard, ev: Event)
    ensures HearAll(h, [ev]) == Hear(h, ev)
  {
    assert [ev][1..] == [];
  }

  /** Content heard in a place. */
  function Meant(h: Heard, place: Place, value: string): Heard {
    match place
    case InThought => h.(thought := h.thought + value)
    case InName => Heeded(h, |h.calls| - 1, value, "", false)
    case InArgs => Heeded(h, |h.calls| - 1, "", value, false)
    case _ => h.(text := h.text + value)
  }

  lemma MeantOn(h: Heard, place: Place, a: string, b: string)
    ensures Meant(Meant(h, place, a), place, b) == Meant(h, place, a + b) && Meant(h, place, "") == h
    ensures |Meant(h, place, a).calls| == |h.calls|
  {
    assert h.text + a + b == h.text + (a + b) && h.thought + a + b == h.thought + (a + b);
    assert h.text + "" == h.text && h.thought + "" == h.thought;
    if h.calls != [] {
      var c := h.calls[|h.calls| - 1];
      assert c.name + a + b == c.name + (a + b) && c.args + a + b == c.args + (a + b);
      assert c.name + "" == c.name && c.args + "" == c.args;
    }
  }

  /** The chunks of a place, put together, are its content. */
  lemma {:induction false} ToldIsHeard(cfg: Config, h: Heard, place: Place, tokens: seq<Token>, index: int)
    requires index == |h.calls| - 1
    ensures HearAll(h, Told(cfg, place, tokens, index)) == Meant(h, place, TextOf(cfg, place, tokens))
    decreases |tokens|
  {
    hide Silent;
    if tokens == [] {
      MeantOn(h, place, "", "");
    } else {
      var rest := Told(cfg, place, tokens[1..], index);
      var value := if Silent(cfg, place, tokens[0]) then "" else tokens[0].value;
      MeantOn(h, place, value, TextOf(cfg, place, tokens[1..]));
      ToldIsHeard(cfg, Meant(h, place, value), place, tokens[1..], index);
      var ev := Event(KindOf(place), tokens[0].value, index);
      assert ([ev] + rest)[1..] == rest;
      assert Hear(h, ev) == Meant(h, place, tokens[0].value);
    }
  }

  function CallMeant(cfg: Config, c: Call): HeardCall {
    HeardCall(TextOf(cfg, InName, c.name), TextOf(cfg, InArgs, c.args), true)
  }

  function MoreMeant(cfg: Config, more: seq<More>): seq<HeardCall> {
    if more == [] then [] else [CallMeant(cfg, more[0].call)] + MoreMeant(cfg, more[1..])
  }

  function BeforeMeant(cfg: Config, h: Heard, b: Before): Heard {
    match b
    case FromText => h
    case FromThought(_, tokens) => h.(thought := h.thought + TextOf(cfg, InThought, tokens))
    case FromForeign(open, tokens) => h.(text := h.text + (open + TextOf(cfg, InForeign, tokens)))
  }

  function WrapperMeant(cfg: Config, h: Heard, w: Wrapper): Heard {
    var b := BeforeMeant(cfg, h, w.before);
    b.(calls := b.calls + ([CallMeant(cfg, w.call)] + MoreMeant(cfg, w.more)))
  }

  function SegmentMeant(cfg: Config, h: Heard, s: Segment): Heard {
    match s
    case Said(tokens) => h.(text := h.text + TextOf(cfg, InText, tokens))
    case Thought(_, tokens, _) => h.(thought := h.thought + TextOf(cfg, InThought, tokens))
    case ThoughtCut(_, tokens, close) =>
      h.(thought := h.thought + TextOf(cfg, InThought, tokens), text := h.text + close)
    case Foreign(open, tokens, close) => h.(text := h.text + (open + TextOf(cfg, InForeign, tokens) + close))
    case Called(w, _) => WrapperMeant(cfg, h, w)
  }

  function AllMeant(cfg: Config, h: Heard, segments: seq<Segment>): Heard
    decreases |segments|
  {
    if segments == [] then h else AllMeant(cfg, SegmentMeant(cfg, h, segments[0]), segments[1..])
  }

  function TailMeant(cfg: Config, h: Heard, t: Tail): Heard {
    match t
    case Whole => h
    case OpenThought(_, tokens) => h.(thought := h.thought + TextOf(cfg, InThought, tokens))
    case OpenCall(w) => WrapperMeant(cfg, h, w)
  }

  const SILENCE := Heard("", "", [])

  function ResponseMeant(cfg: Config, r: Response): Heard {
    var begun := if r.opening.Some? then SILENCE.(thought := TextOf(cfg, InThought, r.opening.value.tokens))
                  else SILENCE;
    TailMeant(cfg, AllMeant(cfg, begun, r.segments), r.tail)
  }

  lemma CallIsHeard(cfg: Config, h: Heard, c: Call, index: int)
    requires index == |h.calls|
    ensures HearAll(h, CallTold(cfg, c, index)) == h.(calls := h.calls + [CallMeant(cfg, c).(ended := false)])
  {
    hide HearAll, Told, TextOf;
    var started := h.(calls := h.calls + [HeardCall("", "", false)]);
    var named := Meant(started, InName, TextOf(cfg, InName, c.name));
    HearBoth(h, [Event(ToolCallStart, c.prefix, index)],
             Told(cfg, InName, c.name, index) + Told(cfg, InArgs, c.args, index));
    HearOne(h, Event(ToolCallStart, c.prefix, index));
    HearBoth(started, Told(cfg, InName, c.name, index), Told(cfg, InArgs, c.args, index));
    ToldIsHeard(cfg, started, InName, c.name, index);
    ToldIsHeard(cfg, named, InArgs, c.args, index);
    assert "" + TextOf(cfg, InName, c.name) + "" == TextOf(cfg, InName, c.name);
    assert "" + "" + TextOf(cfg, InArgs, c.args) == TextOf(cfg, InArgs, c.args);
  }

  /** The last call, ended. */
  lemma EndIsHeard(h: Heard, value: string, index: int, last: HeardCall)
    requires index == |h.calls| - 1 >= 0 && h.calls[index] == last.(ended := false) && last.ended
    ensures HearAll(h, [Event(ToolCallEnd, value, index)]) == h.(calls := h.calls[..index] + [last])
  {
    HearOne(h, Event(ToolCallEnd, value, index));
    assert last.name + "" == last.name && last.args + "" == last.args;
    assert h.calls[index := last] == h.calls[..index] + [last];
  }

  lemma {:induction false} MoreIsHeard(cfg: Config, h: Heard, last: HeardCall, more: seq<More>, value: string,
                                       index: int)
    requires index == |h.calls| - 1 >= 0 && h.calls[index] == last.(ended := false) && last.ended
    ensures HearAll(h, MoreTold(cfg, more, index) + [Event(ToolCallEnd, value, index + |more|)]) ==
              h.(calls := h.calls[..index] + ([last] + MoreMeant(cfg, more)))
    decreases |more|
  {
    hide HearAll, CallTold, CallMeant;
    if more == [] {
      assert MoreTold(cfg, more, index) + [Event(ToolCallEnd, value, index)] == [Event(ToolCallEnd, value, index)];
      EndIsHeard(h, value, index, last);
      assert [last] + MoreMeant(cfg, more) == [last];
    } else {
      var next, end := index + 1, [Event(ToolCallEnd, value, index + |more|)];
      var rest := MoreTold(cfg, more[1..], next);
      var ended := h.(calls := h.calls[..index] + [last]);
      var called := ended.(calls := ended.calls + [CallMeant(cfg, more[0].call).(ended := false)]);
      Regroup([Event(ToolCallEnd, more[0].callEnd, index)], CallTold(cfg, more[0].call, next) + rest, end);
      Regroup(CallTold(cfg, more[0].call, next), rest, end);
      HearBoth(h, [Event(ToolCallEnd, more[0].callEnd, index)], CallTold(cfg, more[0].call, next) + (rest + end));
      EndIsHeard(h, more[0].callEnd, index, last);
      HearBoth(ended, CallTold(cfg, more[0].call, next), rest + end);
      CallIsHeard(cfg, ended, more[0].call, next);
      CallEnded(cfg, more[0].call);
      MoreIsHeard(cfg, called, CallMeant(cfg, more[0].call), more[1..], value, next);
      assert called.calls[..next] == h.calls[..index] + [last];
      Regroup(h.calls[..index], [last], [CallMeant(cfg, more[0].call)] + MoreMeant(cfg, more[1..]));
    }
  }

  lemma CallEnded(cfg: Config, c: Call)
    ensures CallMeant(cfg, c).ended
  {
  }

  lemma BeforeIsHeard(cfg: Config, h: Heard, b: Before, open: string, index: int)
    requires index == |h.calls| - 1
    ensures HearAll(h, BeforeTold(cfg, b, open, index)) == BeforeMeant(cfg, h, b)
    ensures |BeforeMeant(cfg, h, b).calls| == |h.calls|
  {
    hide HearAll, Told, TextOf;
    match b {
      case FromText => HearNothing(h);
      case FromThought(start, tokens) =>
        ThoughtIsHeard(cfg, h, start, tokens, [Event(ReasoningEnd, open, index)], index);
        HearOne(BeforeMeant(cfg, h, b), Event(ReasoningEnd, open, index));
      case FromForeign(start, tokens) =>
        MarkerIsHeard(h, start, index);
        HearBoth(h, Marker(start, index), Told(cfg, InForeign, tokens, index));
        ToldIsHeard(cfg, h.(text := h.text + start), InForeign, tokens, index);
        Regroup(h.text, start, TextOf(cfg, InForeign, tokens));
    }
  }

  lemma HearNothing(h: Heard)
    ensures HearAll(h, []) == h
  {
  }

  lemma MarkerIsHeard(h: Heard, value: string, index: int)
    ensures HearAll(h, Marker(value, index)) == h.(text := h.text + value)
  {
    assert h.text + "" == h.text;
    HearOne(h, Event(TextChunk, value, index));
  }

  /** A thought and what follows it. */
  lemma ThoughtIsHeard(cfg: Config, h: Heard, open: string, tokens: seq<Token>, more: seq<Event>, index: int)
    requires index == |h.calls| - 1
    ensures HearAll(h, [Event(ReasoningStart, open, index)] + (Told(cfg, InThought, tokens, index) + more)) ==
              HearAll(h.(thought := h.thought + TextOf(cfg, InThought, tokens)), more)
  {
    hide HearAll, Told, TextOf;
    HearBoth(h, [Event(ReasoningStart, open, index)], Told(cfg, InThought, tokens, index) + more);
    HearOne(h, Event(ReasoningStart, open, index));
    HearBoth(h, Told(cfg, InThought, tokens, index), more);
    ToldIsHeard(cfg, h, InThought, tokens, index);
  }

  lemma WrapperIsHeard(cfg: Config, h: Heard, w: Wrapper, value: string, index: int)
    requires index == |h.calls| - 1
    ensures HearAll(h, WrapperTold(cfg, w, index) + [Event(ToolCallEnd, value, LastCall(w, index))]) ==
              WrapperMeant(cfg, h, w)
    ensures |WrapperMeant(cfg, h, w).calls| == LastCall(w, index) + 1
  {
    hide HearAll, BeforeTold, BeforeMeant, CallTold, CallMeant, MoreTold;
    var next, end := index + 1, [Event(ToolCallEnd, value, LastCall(w, index))];
    var before, b := BeforeTold(cfg, w.before, w.open, index), BeforeMeant(cfg, h, w.before);
    var call, more := CallTold(cfg, w.call, next), MoreTold(cfg, w.more, next);
    var called := b.(calls := b.calls + [CallMeant(cfg, w.call).(ended := false)]);
    Regroup(before, call + more, end);
    Regroup(call, more, end);
    BeforeIsHeard(cfg, h, w.before, w.open, index);
    HearBoth(h, before, call + (more + end));
    HearBoth(b, call, more + end);
    CallIsHeard(cfg, b, w.call, next);
    CallEnded(cfg, w.call);
    MoreIsHeard(cfg, called, CallMeant(cfg, w.call), w.more, value, next);
    assert called.calls[..next] == b.calls;
    MoreCount(cfg, w.more);
  }

  lemma {:induction false} MoreCount(cfg: Config, more: seq<More>)
    ensures |MoreMeant(cfg, more)| == |more|
  {
    if more != [] {
      MoreCount(cfg, more[1..]);
    }
  }

  lemma SegmentIsHeard(cfg: Config, h: Heard, s: Segment, index: int)
    requires index == |h.calls| - 1
    ensures HearAll(h, SegmentTold(cfg, s, index)) == SegmentMeant(cfg, h, s)
    ensures |SegmentMeant(cfg, h, s).calls| == IndexAfter(s, index) + 1
  {
    hide HearAll, Told, TextOf, WrapperTold, WrapperMeant, LastCall;
    match s {
      case Said(tokens) => ToldIsHeard(cfg, h, InText, tokens, index);
      case Thought(open, tokens, close) =>
        ThoughtIsHeard(cfg, h, open, tokens, [Event(ReasoningEnd, close, index)], index);
        HearOne(SegmentMeant(cfg, h, s), Event(ReasoningEnd, close, index));
      case ThoughtCut(open, tokens, close) =>
        var cut, thought := [Event(ReasoningEnd, close, index), Event(TextChunk, close, index)],
                            h.(thought := h.thought + TextOf(cfg, InThought, tokens));
        ThoughtIsHeard(cfg, h, open, tokens, cut, index);
        assert cut == [cut[0]] + [cut[1]];
        HearBoth(thought, [cut[0]], [cut[1]]);
        HearOne(thought, cut[0]);
        HearOne(thought, cut[1]);
      case Foreign(open, tokens, close) => ForeignIsHeard(cfg, h, open, tokens, close, index);
      case Called(w, ending) =>
        WrapperIsHeard(cfg, h, w, if ending.Closed? then ending.callEnd else ending.wrapEnd, index);
    }
  }

  lemma ForeignIsHeard(cfg: Config, h: Heard, open: string, tokens: seq<Token>, close: string, index: int)
    requires index == |h.calls| - 1
    ensures HearAll(h, Marker(open, index) + (Told(cfg, InForeign, tokens, index) + Marker(close, index))) ==
              h.(text := h.text + (open + TextOf(cfg, InForeign, tokens) + close))
  {
    hide HearAll, Told, TextOf, Marker;
    var told, value := Told(cfg, InForeign, tokens, index), TextOf(cfg, InForeign, tokens);
    var begun := h.(text := h.text + open);
    var inside := begun.(text := begun.text + value);
    HearBoth(h, Marker(open, index), told + Marker(close, index));
    MarkerIsHeard(h, open, index);
    HearBoth(begun, told, Marker(close, index));
    ToldIsHeard(cfg, begun, InForeign, tokens, index);
    MarkerIsHeard(inside, close, index);
    assert h.text + open + value + close == h.text + (open + value + close);
  }

  lemma {:induction false} SegmentsAreHeard(cfg: Config, h: Heard, segments: seq<Segment>, index: int)
    requires index == |h.calls| - 1
    ensures HearAll(h, AllTold(cfg, segments, index)) == AllMeant(cfg, h, segments)
    ensures |AllMeant(cfg, h, segments).calls| == LastIndex(segments, index) + 1
    decreases |segments|
  {
    hide HearAll, SegmentTold, SegmentMeant, IndexAfter;
    if segments == [] {
      HearNothing(h);
    } else {
      var s := segments[0];
      SegmentIsHeard(cfg, h, s, index);
      HearBoth(h, SegmentTold(cfg, s, index), AllTold(cfg, segments[1..], IndexAfter(s, index)));
      SegmentsAreHeard(cfg, SegmentMeant(cfg, h, s), segments[1..], IndexAfter(s, index));
    }
  }

  lemma TailIsHeard(cfg: Config, h: Heard, t: Tail, index: int)
    requires index == |h.calls| - 1
    ensures HearAll(h, TailTold(cfg, t, index)) == TailMeant(cfg, h, t)
  {
    hide HearAll, Told, TextOf, WrapperTold, WrapperMeant, LastCall;
    match t {
      case Whole => HearNothing(h);
      case OpenThought(open, tokens) =>
        ThoughtIsHeard(cfg, h, open, tokens, [Event(ReasoningEnd, "", index)], index);
        HearOne(TailMeant(cfg, h, t), Event(ReasoningEnd, "", index));
      case OpenCall(w) => WrapperIsHeard(cfg, h, w, "", index);
    }
  }

  lemma OpeningIsHeard(cfg: Config, o: Option<Opening>)
    ensures HearAll(SILENCE, OpeningTold(cfg, o)) ==
              if o.Some? then SILENCE.(thought := TextOf(cfg, InThought, o.value.tokens)) else SILENCE
  {
    hide HearAll, Told, TextOf;
    match o {
      case None => HearNothing(SILENCE);
      case Some(opening) =>
        var value := TextOf(cfg, InThought, opening.tokens);
        ToldIsHeard(cfg, SILENCE, InThought, opening.tokens, -1);
        assert "" + value == value;
        HearBoth(SILENCE, Told(cfg, InThought, opening.tokens, -1), [Event(ReasoningEnd, opening.close, -1)]);
        HearOne(SILENCE.(thought := value), Event(ReasoningEnd, opening.close, -1));
    }
  }

  /** What a client makes of a whole response is what was in it: all text, all thoughts, and for each call its name
      and its arguments whole, and its end. */
  lemma ResponseIsHeard(cfg: Config, r: Response)
    requires ResponseFits(cfg, r)
    ensures HearAll(SILENCE, ParseComplete(cfg, StartOf(r), ResponseTokens(r)).1) == ResponseMeant(cfg, r)
  {
    hide HearAll, ParseComplete, OpeningTold, AllTold, AllMeant, TailTold, TailMeant, LastIndex, ResponseFits,
         ResponseTokens, TextOf;
    ResponseIsTold(cfg, r);
    var begun := if r.opening.Some? then SILENCE.(thought := TextOf(cfg, InThought, r.opening.value.tokens))
                  else SILENCE;
    var last := LastIndex(r.segments, -1);
    OpeningIsHeard(cfg, r.opening);
    HearBoth(SILENCE, OpeningTold(cfg, r.opening), AllTold(cfg, r.segments, -1) + TailTold(cfg, r.tail, last));
    HearBoth(begun, AllTold(cfg, r.segments, -1), TailTold(cfg, r.tail, last));
    SegmentsAreHeard(cfg, begun, r.segments, -1);
    TailIsHeard(cfg, AllMeant(cfg, begun, r.segments), r.tail, last);
  }

  // ----- behind a recovered call

  /** The engine stands behind a recovered call, with nothing but white space kept back. */
  predicate BehindRecovered(e: Engine) {
    && e.state.ToolBetween? && e.recovered && !e.holding
    && forall i :: 0 <= i < |e.pendingBetween| ==> IsSpace(e.pendingBetween[i])
  }

  function TextTokens(texts: seq<string>): seq<Token> {
    if texts == [] then [] else [Text(texts[0])] + TextTokens(texts[1..])
  }

  function Values(events: seq<Event>): string {
    if events == [] then "" else events[0].value + Values(events[1..])
  }

  lemma {:induction false} ValuesBoth(a: seq<Event>, b: seq<Event>)
    ensures Values(a + b) == Values(a) + Values(b)
    decreases |a|
  {
    if a == [] {
      assert a + b == b;
    } else {
      assert (a + b)[1..] == a[1..] + b;
      ValuesBoth(a[1..], b);
    }
  }

  /** All are text and more than white space. */
  predicate AllTelling(events: seq<Event>) {
    forall i :: 0 <= i < |events| ==>
      events[i].kind.TextChunk? && exists k :: 0 <= k < |events[i].value| && !IsSpace(events[i].value[k])
  }

  lemma BehindOne(cfg: Config, e: Engine, text: string)
    requires BehindRecovered(e)
    ensures var (next, events) := OnToken(cfg, e, Text(text));
            && BehindRecovered(next) && AllTelling(events)
            && Values(events) + next.pendingBetween == e.pendingBetween + text
  {
    var (next, events) := OnToken(cfg, e, Text(text));
    if events != [] {
      assert events[1..] == [] && Values([]) == "";
      assert events[0].value + "" == events[0].value;
    }
    assert e.pendingBetween + "" == e.pendingBetween;
  }

  /** Text behind a recovered call, whether the wrapper it lacks is to come or not, comes out as text, whole and in
      order, but for white space at its end, which is kept back until something else follows. */
  lemma {:induction false} BehindIsTold(cfg: Config, e: Engine, texts: seq<string>)
    requires BehindRecovered(e)
    ensures var (last, events) := Run(cfg, e, TextTokens(texts));
            && BehindRecovered(last) && AllTelling(events)
            && Values(events) + last.pendingBetween == e.pendingBetween + Join(texts)
    decreases |texts|
  {
    hide OnToken, BehindRecovered;
    if texts != [] {
      var tokens := TextTokens(texts);
      assert tokens[1..] == TextTokens(texts[1..]);
      var (mid, first) := OnToken(cfg, e, Text(texts[0]));
      var (last, rest) := Run(cfg, mid, tokens[1..]);
      BehindOne(cfg, e, texts[0]);
      BehindIsTold(cfg, mid, texts[1..]);
      ValuesBoth(first, rest);
      Regroup(Values(first), Values(rest), last.pendingBetween);
      Regroup(Values(first), mid.pendingBetween, Join(texts[1..]));
      Regroup(e.pendingBetween, texts[0], Join(texts[1..]));
    } else {
      assert "" + e.pendingBetween == e.pendingBetween + "";
    }
  }
}
