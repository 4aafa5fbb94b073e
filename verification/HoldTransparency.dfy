/** What the speculative hold of the parser engine may and may not change.

    A client only sees text concatenated, so outputs are compared after merging
    neighbouring text chunks. The engine with recovery and the one without are run
    side by side; `Watch` follows, from the tokens alone, the name of an invoke that
    has no wrapper.
 */
module HoldTransparency {
  import opened Wrappers
  import opened StreamingParser

  // ----- outputs up to the chunking of text

  function Push(acc: seq<Event>, ev: Event): seq<Event> {
    if !ev.kind.TextChunk? then acc + [ev]
    else if ev.value == "" then acc
    else if acc != [] && acc[|acc| - 1].kind.TextChunk? && acc[|acc| - 1].toolIndex == ev.toolIndex then
      acc[..|acc| - 1] + [Event(TextChunk, acc[|acc| - 1].value + ev.value, ev.toolIndex)]
    else acc + [ev]
  }

  function PushAll(acc: seq<Event>, events: seq<Event>): seq<Event>
    decreases |events|
  {
    if events == [] then acc else PushAll(Push(acc, events[0]), events[1..])
  }

  /** The output a client sees. */
  function Merged(events: seq<Event>): seq<Event> {
    PushAll([], events)
  }

  lemma {:induction false} PushAllConcat(acc: seq<Event>, a: seq<Event>, b: seq<Event>)
    ensures PushAll(acc, a + b) == PushAll(PushAll(acc, a), b)
    decreases |a|
  {
    if a == [] {
      assert a + b == b;
    } else {
      assert (a + b)[1..] == a[1..] + b;
      PushAllConcat(Push(acc, a[0]), a[1..], b);
    }
  }

  /** Text sent in two pieces is text sent in one. */
  lemma TextMerges(acc: seq<Event>, x: string, y: string, index: int)
    ensures Push(Push(acc, Event(TextChunk, x, index)), Event(TextChunk, y, index)) ==
        Push(acc, Event(TextChunk, x + y, index))
  {
    if x == "" {
      assert x + y == y;
    } else if y == "" {
      assert x + y == x;
    } else {
      assert x + y != "";
      if acc != [] {
        var last := acc[|acc| - 1];
        assert (last.value + x) + y == last.value + (x + y);
      }
    }
  }

  lemma PushOne(acc: seq<Event>, ev: Event)
    ensures PushAll(acc, [ev]) == Push(acc, ev)
  {
    assert [ev][1..] == [];
    assert PushAll(Push(acc, ev), []) == Push(acc, ev);
  }

  // ----- following an unwrapped invoke

  predicate Recovers(cfg: Config) {
    cfg.allowed.Some? && !cfg.suppressToolCalls && !cfg.skipToolParsing
  }

  /** The name so far of an invoke opened in plain content, if one is open. */
  function Watch(cfg: Config, plain: ParserState, name: Option<string>, tok: Token): Option<string> {
    match tok
    case Text(value) => if name.Some? then Some(name.value + value) else None
    case Term(InvokePrefix, _) => if plain.Content? && Recovers(cfg) then Some("") else None
    case Term(DropTerminal, _) => if cfg.hasDrops then name else None
    case _ => None
  }

  predicate CompletesDeclared(cfg: Config, name: Option<string>, tok: Token) {
    tok.Term? && tok.terminal.InvokeNameEnd? && name.Some? && cfg.IsDeclared(name.value)
  }

  /** Among `tokens`, an invoke without a wrapper completes with a declared name. The
      states are those of the engine that knows no recovery. */
  predicate SomeCompletes(cfg: Config, plain: Engine, name: Option<string>, tokens: seq<Token>)
    decreases |tokens|
  {
    tokens != [] &&
    (|| CompletesDeclared(cfg, name, tokens[0])
     || SomeCompletes(cfg, OnToken(cfg.WithoutRecovery(), plain, tokens[0]).0,
                      Watch(cfg, plain.state, name, tokens[0]), tokens[1..]))
  }

  // ----- the two engines side by side

  predicate SameLive(a: Engine, b: Engine) {
    a.state == b.state && a.toolIndex == b.toolIndex && a.recovered == b.recovered
        && a.pendingBetween == b.pendingBetween
  }

  predicate Plain(off: Engine) {
    !off.holding && !off.recovered && off.pendingBetween == ""
  }

  /** How the engine with recovery, `on`, stands to the one without. */
  predicate InStep(cfg: Config, on: Engine, off: Engine, name: Option<string>, seenOn: seq<Event>,
                   seenOff: seq<Event>) {
    && Plain(off)
    && (name.Some? ==> off.state.Content?)
    && if on.holding then
         && Recovers(cfg)
         && on.state.ToolName? && on.priorState.Content? && on.priorToolIndex == off.toolIndex
         && off.state.Content? && on.pendingBetween == ""
         && name == Some(Join(on.heldName))
         && on.heldRaw != []
         && on.heldEvents != [] && on.heldEvents[0] == Event(ToolCallStart, on.heldRaw[0], off.toolIndex + 1)
         && seenOff == Push(seenOn, Event(TextChunk, Join(on.heldRaw), off.toolIndex))
       else
         && SameLive(on, off)
         && (name.Some? ==> !cfg.CanGrowIntoDeclaredName(name.value))
         && seenOn == seenOff
  }

  /** Outside a hold the two engines do the same, except where one begins a hold. */
  lemma PlainTerminal(cfg: Config, on: Engine, off: Engine, t: Terminal, value: string)
    requires Plain(off) && !on.holding && SameLive(on, off)
    ensures var (on', evOn) := OnTerminal(cfg, on, t, value);
            var (off', evOff) := OnTerminal(cfg.WithoutRecovery(), off, t, value);
            && Plain(off')
            && if on.state.Content? && t.InvokePrefix? && Recovers(cfg) then
                 && evOn == [] && off' == off && evOff == [Event(TextChunk, value, off.toolIndex)]
                 && on' == BeginHold(on, Lookup(Content, InvokePrefix).value, value)
               else !on'.holding && SameLive(on', off') && evOn == evOff
  {
    var tr := Lookup(on.state, t);
    if tr.None? {
    } else if cfg.skipToolParsing && IsToolTerminal(t) {
    } else if tr.value.validateToolName {
    } else {
      assert ApplyTransition(cfg, on, tr.value, value) == RunTransition(on, tr.value, value);
    }
  }

  lemma StartEvents(value: string, toolIndex: int)
    ensures TransitionEvents([ToolCallStart], value, toolIndex)
            == (toolIndex + 1, [Event(ToolCallStart, value, toolIndex + 1)])
  {
    var kinds := [ToolCallStart];
    assert kinds[1..] == [];
    assert TransitionEvents(kinds[1..], value, toolIndex + 1) == (toolIndex + 1, []);
    assert [Event(ToolCallStart, value, toolIndex + 1)] + [] == [Event(ToolCallStart, value, toolIndex + 1)];
  }

  lemma BegunHolds(e: Engine, value: string)
    ensures var begun := BeginHold(e, Lookup(Content, InvokePrefix).value, value);
            && begun.holding && begun.recovered && begun.state.ToolName? && begun.toolIndex == e.toolIndex + 1
            && begun.heldEvents == [Event(ToolCallStart, value, e.toolIndex + 1)]
            && begun.heldName == [] && Join(begun.heldRaw) == value
  {
    StartEvents(value, e.toolIndex);
    assert [value][1..] == [];
    assert Join([]) == "";
  }

  lemma PlainStep(cfg: Config, on: Engine, off: Engine, name: Option<string>, seen: seq<Event>, tok: Token)
    requires InStep(cfg, on, off, name, seen, seen) && !on.holding
    ensures var (on', evOn) := OnToken(cfg, on, tok);
            var (off', evOff) := OnToken(cfg.WithoutRecovery(), off, tok);
            InStep(cfg, on', off', Watch(cfg, off.state, name, tok), PushAll(seen, evOn), PushAll(seen, evOff))
  {
    match tok {
      case Text(value) =>
        if name.Some? { GrowthNeedsPrefix(cfg, name.value, value); }
      case Term(t, value) =>
        PlainTerminal(cfg, on, off, t, value);
        if on.state.Content? && t.InvokePrefix? && Recovers(cfg) {
          PushOne(seen, Event(TextChunk, value, off.toolIndex));
          BegunHolds(on, value);
          assert PushAll(seen, []) == seen;
        } else if name.Some? && t.DropTerminal? && cfg.hasDrops {
          assert OnTerminal(cfg.WithoutRecovery(), off, t, value).0 == off;
        }
    }
  }

  lemma GrowthNeedsPrefix(cfg: Config, name: string, more: string)
    ensures cfg.CanGrowIntoDeclaredName(name + more) ==> cfg.CanGrowIntoDeclaredName(name)
  {
    if cfg.CanGrowIntoDeclaredName(name + more) {
      var whole :| whole in cfg.allowed.value && name + more <= whole;
      assert name <= whole;
    }
  }

  lemma HeldText(cfg: Config, on: Engine, off: Engine, name: Option<string>, seenOn: seq<Event>, seenOff: seq<Event>,
                 value: string)
    requires InStep(cfg, on, off, name, seenOn, seenOff) && on.holding && value != ""
    ensures var (on', evOn) := OnToken(cfg, on, Text(value));
            var (off', evOff) := OnToken(cfg.WithoutRecovery(), off, Text(value));
            InStep(cfg, on', off', Watch(cfg, off.state, name, Text(value)), PushAll(seenOn, evOn),
                   PushAll(seenOff, evOff))
  {
    var text := Event(TextChunk, value, off.toolIndex);
    PushOne(seenOff, text);
    TextMerges(seenOn, Join(on.heldRaw), value, off.toolIndex);
    if cfg.CanGrowIntoDeclaredName(Join(on.heldName) + value) {
      JoinSnoc(on.heldRaw, value);
      JoinSnoc(on.heldName, value);
      assert PushAll(seenOn, []) == seenOn;
    } else {
      PushOne(seenOn, Event(TextChunk, Join(on.heldRaw) + value, off.toolIndex));
    }
  }

  lemma HeldTerminal(cfg: Config, on: Engine, off: Engine, name: Option<string>, seenOn: seq<Event>,
                     seenOff: seq<Event>, t: Terminal, value: string)
    requires InStep(cfg, on, off, name, seenOn, seenOff) && on.holding
    requires !CompletesDeclared(cfg, name, Term(t, value))
    ensures var (on', evOn) := OnToken(cfg, on, Term(t, value));
            var (off', evOff) := OnToken(cfg.WithoutRecovery(), off, Term(t, value));
            InStep(cfg, on', off', Watch(cfg, off.state, name, Term(t, value)), PushAll(seenOn, evOn),
                   PushAll(seenOff, evOff))
  {
    var raw := Event(TextChunk, Join(on.heldRaw), off.toolIndex);
    if t.InvokeNameEnd? {
      PushOne(seenOff, Event(TextChunk, value, off.toolIndex));
      TextMerges(seenOn, Join(on.heldRaw), value, off.toolIndex);
      PushOne(seenOn, Event(TextChunk, Join(on.heldRaw) + value, off.toolIndex));
    } else if t.DropTerminal? && cfg.hasDrops {
      assert PushAll(seenOn, []) == seenOn && PushAll(seenOff, []) == seenOff;
    } else {
      assert AbortHold(on, Join(on.heldRaw)) == (on.Restored(), [raw]);
      PushOne(seenOn, raw);
      var none: Option<string> := None;
      assert InStep(cfg, on.Restored(), off, none, seenOff, seenOff);
      PlainStep(cfg, on.Restored(), off, none, seenOff, Term(t, value));
      PushAllConcat(seenOn, [raw], OnTerminal(cfg, on.Restored(), t, value).1);
    }
  }

  /** One token keeps the engines in step unless it completes a declared name. */
  lemma StepTogether(cfg: Config, on: Engine, off: Engine, name: Option<string>, seenOn: seq<Event>,
                     seenOff: seq<Event>, tok: Token)
    requires InStep(cfg, on, off, name, seenOn, seenOff)
    requires !(on.holding && CompletesDeclared(cfg, name, tok))
    ensures var (on', evOn) := OnToken(cfg, on, tok);
            var (off', evOff) := OnToken(cfg.WithoutRecovery(), off, tok);
            InStep(cfg, on', off', Watch(cfg, off.state, name, tok), PushAll(seenOn, evOn), PushAll(seenOff, evOff))
  {
    if !on.holding {
      PlainStep(cfg, on, off, name, seenOn, tok);
    } else {
      match tok
      case Text(value) =>
        if value == "" {
          assert Join(on.heldName) + value == Join(on.heldName);
          assert PushAll(seenOn, []) == seenOn && PushAll(seenOff, []) == seenOff;
        } else {
          HeldText(cfg, on, off, name, seenOn, seenOff, value);
        }
      case Term(t, value) =>
        HeldTerminal(cfg, on, off, name, seenOn, seenOff, t, value);
    }
  }

  lemma {:induction false} RunTogether(cfg: Config, on: Engine, off: Engine, name: Option<string>,
                                       seenOn: seq<Event>, seenOff: seq<Event>, tokens: seq<Token>)
    returns (last: Option<string>)
    requires InStep(cfg, on, off, name, seenOn, seenOff)
    requires !SomeCompletes(cfg, off, name, tokens)
    ensures var (on', evOn) := Run(cfg, on, tokens);
            var (off', evOff) := Run(cfg.WithoutRecovery(), off, tokens);
            InStep(cfg, on', off', last, PushAll(seenOn, evOn), PushAll(seenOff, evOff))
    decreases |tokens|
  {
    hide InStep, OnToken, Watch;
    last := name;
    if tokens == [] {
      assert PushAll(seenOn, []) == seenOn && PushAll(seenOff, []) == seenOff;
    } else {
      var (on1, evOn) := OnToken(cfg, on, tokens[0]);
      var (off1, evOff) := OnToken(cfg.WithoutRecovery(), off, tokens[0]);
      StepTogether(cfg, on, off, name, seenOn, seenOff, tokens[0]);
      last := RunTogether(cfg, on1, off1, Watch(cfg, off.state, name, tokens[0]),
                          PushAll(seenOn, evOn), PushAll(seenOff, evOff), tokens[1..]);
      PushAllConcat(seenOn, evOn, Run(cfg, on1, tokens[1..]).1);
      PushAllConcat(seenOff, evOff, Run(cfg.WithoutRecovery(), off1, tokens[1..]).1);
    }
  }

  lemma FinishTogether(cfg: Config, on: Engine, off: Engine, name: Option<string>, seenOn: seq<Event>,
                       seenOff: seq<Event>)
    requires InStep(cfg, on, off, name, seenOn, seenOff)
    ensures SameLive(Finish(on).0, Finish(off).0)
    ensures PushAll(seenOn, Finish(on).1) == PushAll(seenOff, Finish(off).1)
  {
    if on.holding {
      var raw := Event(TextChunk, Join(on.heldRaw), off.toolIndex);
      PushOne(seenOn, raw);
      assert Finish(on).1 == [raw];
      assert PushAll(seenOff, []) == seenOff;
    }
  }

  /** A hold that never commits leaves no trace, however it ends: same output, same state. */
  lemma HoldTransparent(cfg: Config, s: ParserState, tokens: seq<Token>)
    requires !SomeCompletes(cfg, Initial(s), None, tokens)
    ensures var (on, evOn) := ParseComplete(cfg, s, tokens);
            var (off, evOff) := ParseComplete(cfg.WithoutRecovery(), s, tokens);
            Merged(evOn) == Merged(evOff) && SameLive(on, off)
  {
    var e := Initial(s);
    var last := RunTogether(cfg, e, e, None, [], [], tokens);
    var (on, evOn) := Run(cfg, e, tokens);
    var (off, evOff) := Run(cfg.WithoutRecovery(), e, tokens);
    FinishTogether(cfg, on, off, last, Merged(evOn), Merged(evOff));
    PushAllConcat([], evOn, Finish(on).1);
    PushAllConcat([], evOff, Finish(off).1);
  }

  // ----- and only then

  /** Position k already tells the outputs apart, whatever is still to come: what is not
      the last chunk of text cannot change, and the last one can only grow. */
  predicate ApartAt(k: nat, a: seq<Event>, b: seq<Event>) {
    && k < |a| && k < |b|
    && b[k].kind.TextChunk?
    && (!a[k].kind.TextChunk? || (k + 1 < |a| && |a[k].value| < |b[k].value|))
  }

  lemma PushKeepsApart(k: nat, a: seq<Event>, b: seq<Event>, ev: Event)
    requires ApartAt(k, a, b)
    ensures ApartAt(k, Push(a, ev), b) && ApartAt(k, a, Push(b, ev))
  {
  }

  lemma {:induction false} ApartForever(k: nat, a: seq<Event>, b: seq<Event>, moreA: seq<Event>, moreB: seq<Event>)
    requires ApartAt(k, a, b)
    ensures PushAll(a, moreA) != PushAll(b, moreB)
    decreases |moreA| + |moreB|
  {
    hide Push;
    if moreA != [] {
      PushKeepsApart(k, a, b, moreA[0]);
      ApartForever(k, Push(a, moreA[0]), b, moreA[1..], moreB);
    } else if moreB != [] {
      PushKeepsApart(k, a, b, moreB[0]);
      ApartForever(k, a, Push(b, moreB[0]), moreA, moreB[1..]);
    }
  }

  lemma HeldRawNonempty(raw: seq<string>)
    requires raw != [] && raw[0] != ""
    ensures Join(raw) != ""
  {
  }

  /** The step that commits a hold sets the outputs apart. */
  lemma CommitDiverges(cfg: Config, on: Engine, off: Engine, name: Option<string>, seenOn: seq<Event>,
                       seenOff: seq<Event>, value: string)
    returns (k: nat)
    requires InStep(cfg, on, off, name, seenOn, seenOff) && on.holding && on.heldRaw[0] != ""
    requires CompletesDeclared(cfg, name, Term(InvokeNameEnd, value))
    ensures ApartAt(k, PushAll(seenOn, OnToken(cfg, on, Term(InvokeNameEnd, value)).1), seenOff)
  {
    var start := on.heldEvents[0];
    var raw := Join(on.heldRaw);
    HeldRawNonempty(on.heldRaw);
    k := |seenOff| - 1;
    assert ApartAt(k, Push(seenOn, start), seenOff);
    var evOn := OnToken(cfg, on, Term(InvokeNameEnd, value)).1;
    assert evOn[0] == start;
    PushAllKeepsApart(k, Push(seenOn, start), seenOff, evOn[1..]);
  }

  lemma {:induction false} PushAllKeepsApart(k: nat, a: seq<Event>, b: seq<Event>, more: seq<Event>)
    requires ApartAt(k, a, b)
    ensures ApartAt(k, PushAll(a, more), b) && ApartAt(k, a, PushAll(b, more))
    decreases |more|
  {
    hide Push;
    if more != [] {
      PushKeepsApart(k, a, b, more[0]);
      PushAllKeepsApart(k, Push(a, more[0]), b, more[1..]);
      PushAllKeepsApart(k, a, Push(b, more[0]), more[1..]);
    }
  }

  /** The invoke marker is not the empty string. */
  predicate MarkersNonempty(tokens: seq<Token>) {
    forall i :: 0 <= i < |tokens| && tokens[i].Term? && tokens[i].terminal.InvokePrefix? ==> tokens[i].value != ""
  }

  /** A completed name was never given up on, so the engine is holding it. */
  lemma CompletesWhileHolding(cfg: Config, on: Engine, off: Engine, name: Option<string>,
                              seenOn: seq<Event>, seenOff: seq<Event>, tok: Token)
    requires InStep(cfg, on, off, name, seenOn, seenOff) && CompletesDeclared(cfg, name, tok)
    ensures on.holding
  {
    assert cfg.CanGrowIntoDeclaredName(name.value) by {
      assert name.value <= name.value;
    }
  }

  lemma HoldKeepsMarker(cfg: Config, on: Engine, tok: Token)
    requires on.holding ==> on.heldRaw != [] && on.heldRaw[0] != ""
    requires tok.Term? && tok.terminal.InvokePrefix? ==> tok.value != ""
    requires on.holding ==> on.state.ToolName?
    ensures var on' := OnToken(cfg, on, tok).0;
            on'.holding ==> on'.heldRaw != [] && on'.heldRaw[0] != ""
    decreases on.holding
  {
    if on.holding && tok.Term? && Lookup(on.state, tok.terminal).None?
       && !(cfg.hasDrops && tok.terminal.DropTerminal?) {
      HoldKeepsMarker(cfg, AbortHold(on, Join(on.heldRaw)).0, tok);
    }
  }

  lemma {:induction false} RunDiverges(cfg: Config, on: Engine, off: Engine, name: Option<string>,
                                       seenOn: seq<Event>, seenOff: seq<Event>, tokens: seq<Token>)
    returns (k: nat)
    requires InStep(cfg, on, off, name, seenOn, seenOff)
    requires SomeCompletes(cfg, off, name, tokens) && MarkersNonempty(tokens)
    requires on.holding ==> on.heldRaw[0] != ""
    ensures ApartAt(k, PushAll(seenOn, Run(cfg, on, tokens).1),
                    PushAll(seenOff, Run(cfg.WithoutRecovery(), off, tokens).1))
    decreases |tokens|
  {
    hide OnToken, Watch;
    var (on1, evOn) := OnToken(cfg, on, tokens[0]);
    var (off1, evOff) := OnToken(cfg.WithoutRecovery(), off, tokens[0]);
    PushAllConcat(seenOn, evOn, Run(cfg, on1, tokens[1..]).1);
    PushAllConcat(seenOff, evOff, Run(cfg.WithoutRecovery(), off1, tokens[1..]).1);
    if CompletesDeclared(cfg, name, tokens[0]) {
      CompletesWhileHolding(cfg, on, off, name, seenOn, seenOff, tokens[0]);
      k := CommitDiverges(cfg, on, off, name, seenOn, seenOff, tokens[0].value);
      PushAllKeepsApart(k, PushAll(seenOn, evOn), seenOff, Run(cfg, on1, tokens[1..]).1);
      var allOn := PushAll(PushAll(seenOn, evOn), Run(cfg, on1, tokens[1..]).1);
      PushAllKeepsApart(k, allOn, seenOff, evOff);
      PushAllKeepsApart(k, allOn, PushAll(seenOff, evOff), Run(cfg.WithoutRecovery(), off1, tokens[1..]).1);
    } else {
      StepTogether(cfg, on, off, name, seenOn, seenOff, tokens[0]);
      HoldKeepsMarker(cfg, on, tokens[0]);
      k := RunDiverges(cfg, on1, off1, Watch(cfg, off.state, name, tokens[0]),
                       PushAll(seenOn, evOn), PushAll(seenOff, evOff), tokens[1..]);
    }
  }

  /** Recovery changes what the client sees exactly when some unwrapped invoke completes
      with a declared name. */
  lemma RecoveryVisibleIff(cfg: Config, s: ParserState, tokens: seq<Token>)
    requires MarkersNonempty(tokens)
    ensures Merged(ParseComplete(cfg, s, tokens).1) == Merged(ParseComplete(cfg.WithoutRecovery(), s, tokens).1)
        <==> !SomeCompletes(cfg, Initial(s), None, tokens)
  {
    var e := Initial(s);
    if SomeCompletes(cfg, e, None, tokens) {
      var (on, evOn) := Run(cfg, e, tokens);
      var (off, evOff) := Run(cfg.WithoutRecovery(), e, tokens);
      var k := RunDiverges(cfg, e, e, None, [], [], tokens);
      PushAllConcat([], evOn, Finish(on).1);
      PushAllConcat([], evOff, Finish(off).1);
      ApartForever(k, Merged(evOn), Merged(evOff), Finish(on).1, Finish(off).1);
    } else {
      HoldTransparent(cfg, s, tokens);
    }
  }

  // ----- a committed hold

  function NameTokens(texts: seq<string>): seq<Token> {
    seq(|texts|, i requires 0 <= i < |texts| => Text(texts[i]))
  }

  lemma NameChunkHeld(cfg: Config, on: Engine, text: string, rest: string)
    requires on.holding && on.state.ToolName? && text != ""
    requires cfg.IsDeclared(Join(on.heldName) + text + rest)
    ensures OnToken(cfg, on, Text(text))
         == (on.(heldRaw := on.heldRaw + [text], heldName := on.heldName + [text],
                 heldEvents := on.heldEvents + [Event(ToolNameChunk, text, on.toolIndex)]), [])
  {
    assert Join(on.heldName) + text <= Join(on.heldName) + text + rest;
  }

  lemma NameChunkSent(cfg: Config, e: Engine, text: string)
    requires !e.holding && e.state.ToolName? && text != ""
    ensures OnToken(cfg, e, Text(text)) == (e, [Event(ToolNameChunk, text, e.toolIndex)])
  {
  }

  /** Inside a hold the name chunks pile up; inside a wrapped invoke they go out. */
  lemma {:induction false} NameChunks(cfg: Config, on: Engine, wrapped: Engine, texts: seq<string>)
    requires on.holding && on.state.ToolName? && wrapped.state.ToolName? && !wrapped.holding
    requires on.toolIndex == wrapped.toolIndex
    requires cfg.IsDeclared(Join(on.heldName) + Join(texts))
    requires forall i :: 0 <= i < |texts| ==> texts[i] != ""
    ensures var (on', evOn) := Run(cfg, on, NameTokens(texts));
            var (wrapped', evWrapped) := Run(cfg, wrapped, NameTokens(texts));
            && evOn == [] && wrapped' == wrapped
            && on'.holding && on'.state.ToolName? && on'.toolIndex == on.toolIndex
            && on'.heldEvents == on.heldEvents + evWrapped
            && on'.recovered == on.recovered
            && Join(on'.heldName) == Join(on.heldName) + Join(texts)
    decreases |texts|
  {
    hide OnToken;
    if texts == [] {
      assert on.heldEvents + [] == on.heldEvents;
      assert Join(on.heldName) + "" == Join(on.heldName);
    } else {
      assert NameTokens(texts)[1..] == NameTokens(texts[1..]);
      assert Join(on.heldName) + Join(texts) == Join(on.heldName) + texts[0] + Join(texts[1..]);
      JoinSnoc(on.heldName, texts[0]);
      NameChunkHeld(cfg, on, texts[0], Join(texts[1..]));
      NameChunkSent(cfg, wrapped, texts[0]);
      var chunk := Event(ToolNameChunk, texts[0], on.toolIndex);
      NameChunks(cfg, OnToken(cfg, on, Text(texts[0])).0, wrapped, texts[1..]);
      var rest := Run(cfg, wrapped, NameTokens(texts[1..])).1;
      assert on.heldEvents + [chunk] + rest == on.heldEvents + ([chunk] + rest);
    }
  }

  lemma OpenOrphan(cfg: Config, e: Engine, open: string)
    requires Recovers(cfg) && e.state.Content? && !e.holding
    ensures OnToken(cfg, e, Term(InvokePrefix, open)) == (BeginHold(e, Lookup(Content, InvokePrefix).value, open), [])
  {
  }

  lemma OpenWrapped(cfg: Config, e: Engine, open: string)
    requires !cfg.skipToolParsing && e.state.ToolPreamble? && !e.holding
    ensures var (e', events) := OnToken(cfg, e, Term(InvokePrefix, open));
            && events == [Event(ToolCallStart, open, e.toolIndex + 1)]
            && e'.state.ToolName? && !e'.holding && e'.toolIndex == e.toolIndex + 1
  {
    StartEvents(open, e.toolIndex);
  }

  lemma CloseName(cfg: Config, e: Engine, close: string)
    requires !cfg.skipToolParsing && e.state.ToolName? && (e.holding ==> cfg.IsDeclared(Join(e.heldName)))
    ensures var (e', events) := OnToken(cfg, e, Term(InvokeNameEnd, close));
            && events == (if e.holding then e.heldEvents else [])
            && e'.state.ToolArgs? && e'.toolIndex == e.toolIndex && !e'.holding && e'.recovered == e.recovered
  {
    assert TransitionEvents([], close, e.toolIndex) == (e.toolIndex, []);
    assert e.heldEvents + [] == e.heldEvents;
  }

  /** A recovered call emits exactly what the same call inside its wrapper emits, and
      leaves the engine in the same place. */
  lemma CommitMatchesWrapped(cfg: Config, orphan: Engine, wrapped: Engine, open: string, texts: seq<string>,
                             close: string)
    requires Recovers(cfg) && cfg.IsDeclared(Join(texts))
    requires orphan.state.Content? && !orphan.holding
    requires wrapped.state.ToolPreamble? && !wrapped.holding && wrapped.toolIndex == orphan.toolIndex
    requires forall i :: 0 <= i < |texts| ==> texts[i] != ""
    ensures var tokens := [Term(InvokePrefix, open)] + NameTokens(texts) + [Term(InvokeNameEnd, close)];
            var (orphan', evOrphan) := Run(cfg, orphan, tokens);
            var (wrapped', evWrapped) := Run(cfg, wrapped, tokens);
            && evOrphan == evWrapped
            && orphan'.state == wrapped'.state == ToolArgs && orphan'.toolIndex == wrapped'.toolIndex
            && !orphan'.holding && orphan'.recovered
  {
    hide OnToken, Run, BeginHold, NameTokens;
    var first, names, last := Term(InvokePrefix, open), NameTokens(texts), Term(InvokeNameEnd, close);
    BegunHolds(orphan, open);
    OpenOrphan(cfg, orphan, open);
    OpenWrapped(cfg, wrapped, open);
    var o1 := OnToken(cfg, orphan, first).0;
    var w1 := OnToken(cfg, wrapped, first).0;
    assert Join(o1.heldName) + Join(texts) == Join(texts);
    NameChunks(cfg, o1, w1, texts);
    CloseName(cfg, Run(cfg, o1, names).0, close);
    CloseName(cfg, Run(cfg, w1, names).0, close);
    OpenThenNames(cfg, orphan, first, names, last);
    OpenThenNames(cfg, wrapped, first, names, last);
  }

  lemma OpenThenNames(cfg: Config, e: Engine, first: Token, names: seq<Token>, last: Token)
    ensures var (e1, ev1) := OnToken(cfg, e, first);
            var (e2, ev2) := Run(cfg, e1, names);
            var (e3, ev3) := OnToken(cfg, e2, last);
            Run(cfg, e, [first] + names + [last]) == (e3, ev1 + ev2 + ev3)
  {
    hide OnToken;
    assert ([first] + names)[1..] == names;
    RunSnoc(cfg, e, [first] + names, last);
  }
}
