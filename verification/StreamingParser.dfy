/** The streaming tool-call parser engine, over lexed tokens, with the DeepSeek V4
    transition table.

    The engine recovers an invoke that lost its wrapper: it follows the invoke's
    transition but holds every event back until the tool name is complete, and then
    either commits or undoes everything. `Engine` is the engine's state as a value,
    `StreamingParserEngine` the object whose fields the methods update.
 */
module StreamingParser {
  import opened Wrappers

  datatype ParserState = Content | Reasoning | ToolPreamble | ToolName | ToolArgs | ToolBetween | ForeignBlock

  datatype Terminal =
    | ThinkStart | ThinkEnd | ToolStart | ToolEnd
    | InvokePrefix | InvokeNameEnd | InvokeEnd | ParamClose
    | ForeignStart | ForeignEnd | DropTerminal

  datatype EventType =
    | TextChunk | ReasoningStart | ReasoningChunk | ReasoningEnd
    | ToolCallStart | ToolNameChunk | ArgValueChunk | ToolCallEnd

  datatype Event = Event(kind: EventType, value: string, toolIndex: int)

  datatype Transition = Transition(next: ParserState, events: seq<EventType>, validateToolName: bool)

  /** What the lexer hands to the engine. */
  datatype Token = Term(terminal: Terminal, value: string) | Text(value: string)

  predicate IsToolState(s: ParserState) {
    s.ToolPreamble? || s.ToolName? || s.ToolArgs? || s.ToolBetween?
  }

  /** The DeepSeek V4 transition table. */
  function Lookup(s: ParserState, t: Terminal): Option<Transition> {
    match (s, t)
    case (Content, ThinkStart) => Some(Transition(Reasoning, [ReasoningStart], false))
    case (Content, ThinkEnd) => Some(Transition(Content, [], false))
    case (Reasoning, ThinkStart) => Some(Transition(Reasoning, [], false))
    case (Reasoning, ThinkEnd) => Some(Transition(Content, [ReasoningEnd], false))
    case (Reasoning, ToolStart) => Some(Transition(ToolPreamble, [ReasoningEnd], false))
    case (Content, ToolStart) => Some(Transition(ToolPreamble, [], false))
    case (Content, InvokePrefix) => Some(Transition(ToolName, [ToolCallStart], true))
    case (Content, ForeignStart) => Some(Transition(ForeignBlock, [TextChunk], false))
    case (ForeignBlock, ForeignEnd) => Some(Transition(Content, [TextChunk], false))
    case (ForeignBlock, ToolStart) => Some(Transition(ToolPreamble, [], false))
    case (ToolPreamble, InvokePrefix) => Some(Transition(ToolName, [ToolCallStart], false))
    case (ToolName, InvokeNameEnd) => Some(Transition(ToolArgs, [], false))
    case (ToolArgs, InvokeEnd) => Some(Transition(ToolBetween, [ToolCallEnd], false))
    case (ToolArgs, ToolEnd) => Some(Transition(Content, [ToolCallEnd], false))
    case (ToolBetween, InvokePrefix) => Some(Transition(ToolName, [ToolCallStart], false))
    case (ToolBetween, ToolEnd) => Some(Transition(Content, [], false))
    case _ => None
  }

  /** The event that plain text becomes in each state. */
  function ContentEvent(s: ParserState): Option<EventType> {
    match s
    case Content => Some(TextChunk)
    case Reasoning => Some(ReasoningChunk)
    case ToolName => Some(ToolNameChunk)
    case ToolArgs => Some(ArgValueChunk)
    case ForeignBlock => Some(TextChunk)
    case _ => None
  }

  /** The terminals of transitions into, out of or between tool states. */
  predicate IsToolTerminal(t: Terminal) {
    t.ToolStart? || t.ToolEnd? || t.InvokePrefix? || t.InvokeNameEnd? || t.InvokeEnd?
  }

  lemma ToolTerminalsOfTable(t: Terminal)
    ensures IsToolTerminal(t) <==>
              exists s :: Lookup(s, t).Some? && (IsToolState(s) || IsToolState(Lookup(s, t).value.next))
  {
    match t
    case ToolStart => assert Lookup(Content, t).Some?;
    case ToolEnd => assert Lookup(ToolArgs, t).Some?;
    case InvokePrefix => assert Lookup(ToolPreamble, t).Some?;
    case InvokeNameEnd => assert Lookup(ToolName, t).Some?;
    case InvokeEnd => assert Lookup(ToolArgs, t).Some?;
    case _ =>
  }

  /** The characters Python's str.strip() removes. */
  predicate IsSpace(c: char) {
    || '\U{9}' <= c <= '\U{D}' || '\U{1C}' <= c <= ' ' || c == '\U{85}' || c == '\U{A0}' || c == '\U{1680}'
    || '\U{2000}' <= c <= '\U{200A}' || c == '\U{2028}' || c == '\U{2029}' || c == '\U{202F}'
    || c == '\U{205F}' || c == '\U{3000}'
  }

  predicate IsBlank(s: string) {
    forall i :: 0 <= i < |s| ==> IsSpace(s[i])
  }

  function Join(parts: seq<string>): string {
    if parts == [] then "" else parts[0] + Join(parts[1..])
  }

  lemma JoinSnoc(parts: seq<string>, last: string)
    ensures Join(parts + [last]) == Join(parts) + last
  {
    if parts == [] {
      assert parts + [last] == [last];
    } else {
      assert (parts + [last])[1..] == parts[1..] + [last];
      JoinSnoc(parts[1..], last);
    }
  }

  /** Per-request settings: declared tool names, if known, and the suppression flags. */
  datatype Config = Config(
    allowed: Option<set<string>>,
    suppressToolCalls: bool,
    skipToolParsing: bool,
    hasDrops: bool)
  {
    predicate CanGrowIntoDeclaredName(candidate: string) {
      allowed.Some? && exists name :: name in allowed.value && candidate <= name
    }

    predicate IsDeclared(name: string) {
      allowed.Some? && name in allowed.value
    }

    /** The same request with orphan-invoke recovery turned off. */
    function WithoutRecovery(): Config {
      this.(suppressToolCalls := true)
    }
  }

  datatype Engine = Engine(
    state: ParserState,
    toolIndex: int,
    recovered: bool,
    pendingBetween: string,
    holding: bool,
    heldEvents: seq<Event>,
    heldRaw: seq<string>,
    heldName: seq<string>,
    priorState: ParserState,
    priorToolIndex: int)
  {
    /** Drop the held events and return to where the hold began. */
    function Restored(): Engine {
      this.(state := priorState, toolIndex := priorToolIndex, recovered := IsToolState(priorState),
            holding := false, heldEvents := [], heldRaw := [], heldName := [])
    }

    function Cleared(): Engine {
      this.(holding := false, heldEvents := [], heldRaw := [], heldName := [])
    }
  }

  function Initial(s: ParserState): Engine {
    Engine(s, -1, false, "", false, [], [], [], s, -1)
  }

  /** Text outside a held tool name. */
  function EmitPlain(e: Engine, text: string): (Engine, seq<Event>) {
    var kind := ContentEvent(e.state);
    if kind.Some? then (e, [Event(kind.value, text, e.toolIndex)])
    else if e.recovered && e.state.ToolBetween? then
      var pending := e.pendingBetween + text;
      if IsBlank(pending) then (e.(pendingBetween := pending), [])
      else (e.(pendingBetween := ""), [Event(TextChunk, pending, e.toolIndex)])
    else (e, [])
  }

  function AbortHold(e: Engine, raw: string): (Engine, seq<Event>) {
    EmitPlain(e.Restored(), raw)
  }

  function EmitForState(cfg: Config, e: Engine, text: string): (Engine, seq<Event>) {
    if e.holding && e.state.ToolName? then
      if !cfg.CanGrowIntoDeclaredName(Join(e.heldName) + text) then
        AbortHold(e, Join(e.heldRaw) + text)
      else
        (e.(heldRaw := e.heldRaw + [text], heldName := e.heldName + [text],
            heldEvents := e.heldEvents + [Event(ToolNameChunk, text, e.toolIndex)]), [])
    else EmitPlain(e, text)
  }

  /** The events of a transition; a tool call start takes the next index. */
  function TransitionEvents(kinds: seq<EventType>, value: string, toolIndex: int): (int, seq<Event>) {
    if kinds == [] then (toolIndex, [])
    else
      var index := if kinds[0].ToolCallStart? then toolIndex + 1 else toolIndex;
      var (last, rest) := TransitionEvents(kinds[1..], value, index);
      if kinds[0].TextChunk? && value == "" then (last, rest)
      else (last, [Event(kinds[0], value, index)] + rest)
  }

  function RunTransition(e: Engine, tr: Transition, value: string): (Engine, seq<Event>) {
    var (index, events) := TransitionEvents(tr.events, value, e.toolIndex);
    (e.(state := tr.next, toolIndex := index, pendingBetween := "",
        recovered := e.recovered && IsToolState(tr.next)), events)
  }

  function BeginHold(e: Engine, tr: Transition, value: string): Engine {
    var (next, events) := RunTransition(e, tr, value);
    next.(heldEvents := events, heldRaw := [value], heldName := [],
          priorState := e.state, priorToolIndex := e.toolIndex, holding := true, recovered := true)
  }

  function ResolveHold(cfg: Config, e: Engine, tr: Transition, value: string): (Engine, seq<Event>) {
    if cfg.IsDeclared(Join(e.heldName)) then
      var (next, events) := RunTransition(e.Cleared(), tr, value);
      (next, e.heldEvents + events)
    else AbortHold(e, Join(e.heldRaw) + value)
  }

  function ApplyTransition(cfg: Config, e: Engine, tr: Transition, value: string): (Engine, seq<Event>) {
    if e.holding then ResolveHold(cfg, e, tr, value)
    else if tr.validateToolName then
      if cfg.suppressToolCalls || cfg.allowed.None? then EmitForState(cfg, e, value)
      else (BeginHold(e, tr, value), [])
    else RunTransition(e, tr, value)
  }

  /** A tool terminal met while tool parsing is skipped stays text. */
  function SkipTerminal(e: Engine, tr: Transition, value: string): (Engine, seq<Event>) {
    if ReasoningEnd in tr.events then
      (e.(state := Content), [Event(ReasoningEnd, value, e.toolIndex), Event(TextChunk, value, e.toolIndex)])
    else
      var kind := ContentEvent(e.state);
      (e, if kind.Some? then [Event(kind.value, value, e.toolIndex)] else [])
  }

  function OnTerminal(cfg: Config, e: Engine, t: Terminal, value: string): (Engine, seq<Event>)
    decreases e.holding
  {
    var tr := Lookup(e.state, t);
    if tr.None? then
      if cfg.hasDrops && t.DropTerminal? then (e, [])
      else if e.holding && e.state.ToolName? then
        var (restored, first) := AbortHold(e, Join(e.heldRaw));
        var (next, rest) := OnTerminal(cfg, restored, t, value);
        (next, first + rest)
      else EmitForState(cfg, e, value)
    else if cfg.skipToolParsing && IsToolTerminal(t) then SkipTerminal(e, tr.value, value)
    else ApplyTransition(cfg, e, tr.value, value)
  }

  function OnToken(cfg: Config, e: Engine, tok: Token): (Engine, seq<Event>) {
    match tok
    case Term(t, value) => OnTerminal(cfg, e, t, value)
    case Text(value) => if value == "" then (e, []) else EmitForState(cfg, e, value)
  }

  function Run(cfg: Config, e: Engine, tokens: seq<Token>): (Engine, seq<Event>)
    decreases |tokens|
  {
    if tokens == [] then (e, [])
    else
      var (mid, first) := OnToken(cfg, e, tokens[0]);
      var (last, rest) := Run(cfg, mid, tokens[1..]);
      (last, first + rest)
  }

  lemma {:induction false} RunConcat(cfg: Config, e: Engine, a: seq<Token>, b: seq<Token>)
    ensures var (mid, first) := Run(cfg, e, a);
            var (last, rest) := Run(cfg, mid, b);
            Run(cfg, e, a + b) == (last, first + rest)
    decreases |a|
  {
    hide OnToken;
    if a == [] {
      assert a + b == b;
      assert [] + Run(cfg, e, b).1 == Run(cfg, e, b).1;
    } else {
      assert (a + b)[1..] == a[1..] + b;
      var (mid, first) := OnToken(cfg, e, a[0]);
      RunConcat(cfg, mid, a[1..], b);
      var (end, middle) := Run(cfg, mid, a[1..]);
      assert first + (middle + Run(cfg, end, b).1) == first + middle + Run(cfg, end, b).1;
    }
  }

  lemma RunSnoc(cfg: Config, e: Engine, tokens: seq<Token>, tok: Token)
    ensures var (mid, first) := Run(cfg, e, tokens);
            var (last, rest) := OnToken(cfg, mid, tok);
            Run(cfg, e, tokens + [tok]) == (last, first + rest)
  {
    hide OnToken;
    RunConcat(cfg, e, tokens, [tok]);
    var mid := Run(cfg, e, tokens).0;
    assert [tok][1..] == [];
    assert Run(cfg, OnToken(cfg, mid, tok).0, []).1 == [];
    assert OnToken(cfg, mid, tok).1 + [] == OnToken(cfg, mid, tok).1;
  }

  /** What the end of the stream emits. */
  function Finish(e: Engine): (Engine, seq<Event>) {
    var (open, flushed) := if e.holding then AbortHold(e, Join(e.heldRaw)) else (e, []);
    if IsToolState(open.state) then
      (open.(state := Content),
       flushed + if open.toolIndex >= 0 then [Event(ToolCallEnd, "", open.toolIndex)] else [])
    else if open.state.Reasoning? then
      (open.(state := Content), flushed + [Event(ReasoningEnd, "", open.toolIndex)])
    else (open, flushed)
  }

  /** A whole response: every token, then the end of the stream. */
  function ParseComplete(cfg: Config, s: ParserState, tokens: seq<Token>): (Engine, seq<Event>) {
    var (last, events) := Run(cfg, Initial(s), tokens);
    var (done, closing) := Finish(last);
    (done, events + closing)
  }

  class StreamingParserEngine {
    const config: Config
    var state: ParserState
    var toolIndex: int
    var recoveredToolCall: bool
    var pendingBetweenText: string
    var holdActive: bool
    var heldEvents: seq<Event>
    var heldRaw: seq<string>
    var heldName: seq<string>
    var heldPriorState: ParserState
    var heldPriorToolIndex: int

    ghost function View(): Engine
      reads this
    {
      Engine(state, toolIndex, recoveredToolCall, pendingBetweenText, holdActive,
             heldEvents, heldRaw, heldName, heldPriorState, heldPriorToolIndex)
    }

    constructor (config: Config, initialState: ParserState)
      ensures this.config == config && View() == Initial(initialState)
    {
      this.config := config;
      state, toolIndex, recoveredToolCall, pendingBetweenText := initialState, -1, false, "";
      holdActive, heldEvents, heldRaw, heldName := false, [], [], [];
      heldPriorState, heldPriorToolIndex := initialState, -1;
    }

    method EmitTransitionEvents(kinds: seq<EventType>, value: string) returns (events: seq<Event>)
      modifies this`toolIndex
      ensures (toolIndex, events) == TransitionEvents(kinds, value, old(toolIndex))
    {
      events := [];
      ghost var all := TransitionEvents(kinds, value, toolIndex);
      var i := 0;
      assert kinds[0..] == kinds;
      while i < |kinds|
        invariant 0 <= i <= |kinds|
        invariant TransitionEvents(kinds[i..], value, toolIndex).0 == all.0
        invariant events + TransitionEvents(kinds[i..], value, toolIndex).1 == all.1
      {
        if kinds[i].ToolCallStart? {
          toolIndex := toolIndex + 1;
        }
        assert kinds[i..][1..] == kinds[i + 1..];
        if !(kinds[i].TextChunk? && value == "") {
          events := events + [Event(kinds[i], value, toolIndex)];
        }
        i := i + 1;
      }
      assert events + [] == events;
    }

    method RunTransitionInPlace(tr: Transition, value: string) returns (events: seq<Event>)
      modifies this`state, this`toolIndex, this`recoveredToolCall, this`pendingBetweenText
      ensures (View(), events) == RunTransition(old(View()), tr, value)
    {
      pendingBetweenText := "";
      if !IsToolState(tr.next) {
        recoveredToolCall := false;
      }
      state := tr.next;
      events := EmitTransitionEvents(tr.events, value);
    }

    method ClearHold()
      modifies this`holdActive, this`heldEvents, this`heldRaw, this`heldName
      ensures View() == old(View()).Cleared()
    {
      holdActive, heldEvents, heldRaw, heldName := false, [], [], [];
    }

    method AbortHoldInPlace(raw: string) returns (events: seq<Event>)
      requires holdActive
      modifies this
      ensures (View(), events) == AbortHold(old(View()), raw)
      decreases holdActive, 0
    {
      state, toolIndex := heldPriorState, heldPriorToolIndex;
      recoveredToolCall := IsToolState(heldPriorState);
      ClearHold();
      events := Emit(raw);
    }

    /** Text in the current state; also the end of a hold whose name cannot be declared. */
    method Emit(text: string) returns (events: seq<Event>)
      modifies this
      ensures (View(), events) == EmitForState(config, old(View()), text)
      decreases holdActive, 1
    {
      if holdActive && state.ToolName? {
        var candidate := Join(heldName) + text;
        if !config.CanGrowIntoDeclaredName(candidate) {
          events := AbortHoldInPlace(Join(heldRaw) + text);
          return;
        }
        heldRaw := heldRaw + [text];
        heldName := heldName + [text];
        heldEvents := heldEvents + [Event(ToolNameChunk, text, toolIndex)];
        return [];
      }
      var kind := ContentEvent(state);
      if kind.Some? {
        return [Event(kind.value, text, toolIndex)];
      }
      if recoveredToolCall && state.ToolBetween? {
        pendingBetweenText := pendingBetweenText + text;
        if !IsBlank(pendingBetweenText) {
          var held := pendingBetweenText;
          pendingBetweenText := "";
          return [Event(TextChunk, held, toolIndex)];
        }
      }
      events := [];
    }

    method BeginHoldInPlace(tr: Transition, value: string)
      modifies this
      ensures View() == BeginHold(old(View()), tr, value)
    {
      var priorState, priorToolIndex := state, toolIndex;
      heldEvents := RunTransitionInPlace(tr, value);
      heldRaw, heldName := [value], [];
      heldPriorState, heldPriorToolIndex := priorState, priorToolIndex;
      holdActive, recoveredToolCall := true, true;
    }

    method ResolveHoldInPlace(tr: Transition, value: string) returns (events: seq<Event>)
      requires holdActive
      modifies this
      ensures (View(), events) == ResolveHold(config, old(View()), tr, value)
    {
      var name := Join(heldName);
      if config.IsDeclared(name) {
        events := heldEvents;
        ClearHold();
        var more := RunTransitionInPlace(tr, value);
        events := events + more;
      } else {
        events := AbortHoldInPlace(Join(heldRaw) + value);
      }
    }

    method ApplyTransitionInPlace(tr: Transition, value: string) returns (events: seq<Event>)
      modifies this
      ensures (View(), events) == ApplyTransition(config, old(View()), tr, value)
    {
      if holdActive {
        events := ResolveHoldInPlace(tr, value);
      } else if tr.validateToolName {
        if config.suppressToolCalls || config.allowed.None? {
          events := Emit(value);
        } else {
          BeginHoldInPlace(tr, value);
          events := [];
        }
      } else {
        events := RunTransitionInPlace(tr, value);
      }
    }

    method HandleTerminal(t: Terminal, value: string) returns (events: seq<Event>)
      modifies this
      ensures (View(), events) == OnTerminal(config, old(View()), t, value)
      decreases holdActive
    {
      var tr := Lookup(state, t);
      if tr.None? {
        if config.hasDrops && t.DropTerminal? {
          return [];
        }
        if holdActive && state.ToolName? {
          events := AbortHoldInPlace(Join(heldRaw));
          var rest := HandleTerminal(t, value);
          events := events + rest;
          return;
        }
        events := Emit(value);
        return;
      }
      if config.skipToolParsing && IsToolTerminal(t) {
        if ReasoningEnd in tr.value.events {
          state := Content;
          return [Event(ReasoningEnd, value, toolIndex), Event(TextChunk, value, toolIndex)];
        }
        var kind := ContentEvent(state);
        return if kind.Some? then [Event(kind.value, value, toolIndex)] else [];
      }
      events := ApplyTransitionInPlace(tr.value, value);
    }

    method HandleToken(tok: Token) returns (events: seq<Event>)
      modifies this
      ensures (View(), events) == OnToken(config, old(View()), tok)
    {
      events := [];
      match tok {
        case Term(t, value) => events := HandleTerminal(t, value);
        case Text(value) =>
          if value != "" {
            events := Emit(value);
          }
      }
    }

    /** Feed lexed tokens, in order. */
    method ProcessTokens(tokens: seq<Token>) returns (events: seq<Event>)
      modifies this
      ensures (View(), events) == Run(config, old(View()), tokens)
    {
      hide OnToken;
      events := [];
      ghost var start := View();
      var i := 0;
      assert tokens[..0] == [];
      while i < |tokens|
        invariant 0 <= i <= |tokens|
        invariant (View(), events) == Run(config, start, tokens[..i])
      {
        assert tokens[..i + 1] == tokens[..i] + [tokens[i]];
        RunSnoc(config, start, tokens[..i], tokens[i]);
        var more := HandleToken(tokens[i]);
        events := events + more;
        i := i + 1;
      }
      assert tokens[..i] == tokens;
    }

    method FinishInPlace() returns (events: seq<Event>)
      modifies this
      ensures (View(), events) == Finish(old(View()))
    {
      events := [];
      if holdActive {
        events := AbortHoldInPlace(Join(heldRaw));
      }
      assert events + [] == events;
      if IsToolState(state) {
        if toolIndex >= 0 {
          events := events + [Event(ToolCallEnd, "", toolIndex)];
        }
        state := Content;
      } else if state.Reasoning? {
        events := events + [Event(ReasoningEnd, "", toolIndex)];
        state := Content;
      }
    }
  }
}
