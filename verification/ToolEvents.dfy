/** Tool events of the parser engine always address the slot opened last: starts are
    numbered 0, 1, 2, ... and names, arguments and ends carry the number of the latest
    start, so the slot list of the argument streamer is never indexed past its end. */
module ToolEvents {
  import opened Wrappers
  import opened StreamingParser

  predicate IsToolEvent(k: EventType) {
    k.ToolNameChunk? || k.ArgValueChunk? || k.ToolCallEnd?
  }

  /** After `slots` starts, the events address existing slots only, the latest one. */
  predicate Addressed(events: seq<Event>, slots: nat) {
    events == [] ||
    var ev := events[0];
    && (ev.kind.ToolCallStart? ==> ev.toolIndex == slots)
    && (IsToolEvent(ev.kind) ==> slots > 0 && ev.toolIndex == slots - 1)
    && Addressed(events[1..], slots + if ev.kind.ToolCallStart? then 1 else 0)
  }

  function Starts(events: seq<Event>): nat {
    if events == [] then 0 else (if events[0].kind.ToolCallStart? then 1 else 0) + Starts(events[1..])
  }

  lemma {:induction false} AddressedConcat(a: seq<Event>, b: seq<Event>, slots: nat)
    requires Addressed(a, slots) && Addressed(b, slots + Starts(a))
    ensures Addressed(a + b, slots) && Starts(a + b) == Starts(a) + Starts(b)
    decreases |a|
  {
    if a == [] {
      assert a + b == b;
    } else {
      assert (a + b)[1..] == a[1..] + b;
      AddressedConcat(a[1..], b, slots + if a[0].kind.ToolCallStart? then 1 else 0);
    }
  }

  lemma AddressedOne(ev: Event, slots: nat)
    requires ev.kind.ToolCallStart? ==> ev.toolIndex == slots
    requires IsToolEvent(ev.kind) ==> slots > 0 && ev.toolIndex == slots - 1
    ensures Addressed([ev], slots) && Starts([ev]) == if ev.kind.ToolCallStart? then 1 else 0
  {
    assert [ev][1..] == [];
    assert Starts([]) == 0;
  }

  /** The engine's index is that of the last slot opened; during a hold, of the one held back. */
  predicate Counted(e: Engine, slots: nat) {
    if e.holding then
      && e.state.ToolName? && e.toolIndex == slots && e.priorToolIndex == slots - 1 && e.priorState.Content?
      && Addressed(e.heldEvents, slots) && Starts(e.heldEvents) == 1
    else
      && e.toolIndex == slots - 1
      && (e.state.ToolName? || e.state.ToolArgs? ==> slots > 0)
  }

  lemma PlainCounted(e: Engine, text: string, slots: nat)
    requires !e.holding && Counted(e, slots)
    ensures var (e', events) := EmitPlain(e, text);
            !e'.holding && Counted(e', slots) && Addressed(events, slots) && Starts(events) == 0
  {
    var events := EmitPlain(e, text).1;
    if events != [] {
      assert events == [events[0]];
      AddressedOne(events[0], slots);
    }
  }

  lemma TransitionCounted(e: Engine, s: ParserState, t: Terminal, value: string, slots: nat)
    requires !e.holding && Counted(e, slots) && e.state == s && Lookup(s, t).Some?
    ensures var (e', events) := RunTransition(e, Lookup(s, t).value, value);
            && !e'.holding && Addressed(events, slots) && Counted(e', slots + Starts(events))
            && (Lookup(s, t).value.validateToolName ==> Starts(events) == 1)
  {
    var kinds := Lookup(s, t).value.events;
    if kinds != [] {
      var started := if kinds[0].ToolCallStart? then e.toolIndex + 1 else e.toolIndex;
      var ev := Event(kinds[0], value, started);
      assert kinds[1..] == [];
      assert TransitionEvents(kinds[1..], value, started) == (started, []);
      assert [ev] + [] == [ev];
      AddressedOne(ev, slots);
    }
  }

  lemma AbortCounted(e: Engine, raw: string, slots: nat)
    requires e.holding && Counted(e, slots)
    ensures var (e', events) := AbortHold(e, raw);
            !e'.holding && Counted(e', slots) && Addressed(events, slots) && Starts(events) == 0
  {
    PlainCounted(e.Restored(), raw, slots);
  }

  lemma EmitCounted(cfg: Config, e: Engine, text: string, slots: nat)
    requires Counted(e, slots)
    ensures var (e', events) := EmitForState(cfg, e, text);
            Counted(e', slots) && Addressed(events, slots) && Starts(events) == 0
  {
    if !e.holding {
      PlainCounted(e, text, slots);
    } else if !cfg.CanGrowIntoDeclaredName(Join(e.heldName) + text) {
      AbortCounted(e, Join(e.heldRaw) + text, slots);
    } else {
      var chunk := Event(ToolNameChunk, text, e.toolIndex);
      AddressedOne(chunk, slots + 1);
      AddressedConcat(e.heldEvents, [chunk], slots);
    }
  }

  lemma ApplyCounted(cfg: Config, e: Engine, t: Terminal, value: string, slots: nat)
    requires Counted(e, slots) && Lookup(e.state, t).Some?
    ensures var (e', events) := ApplyTransition(cfg, e, Lookup(e.state, t).value, value);
            Addressed(events, slots) && Counted(e', slots + Starts(events))
  {
    var tr := Lookup(e.state, t).value;
    if !e.holding {
      TransitionCounted(e, e.state, t, value, slots);
      EmitCounted(cfg, e, value, slots);
    } else if cfg.IsDeclared(Join(e.heldName)) {
      TransitionCounted(e.Cleared(), e.state, t, value, slots + 1);
      AddressedConcat(e.heldEvents, RunTransition(e.Cleared(), tr, value).1, slots);
    } else {
      AbortCounted(e, Join(e.heldRaw) + value, slots);
    }
  }

  lemma SkipCounted(e: Engine, tr: Transition, value: string, slots: nat)
    requires !e.holding && Counted(e, slots)
    ensures var (e', events) := SkipTerminal(e, tr, value);
            !e'.holding && Addressed(events, slots) && Starts(events) == 0 && Counted(e', slots)
  {
    if ReasoningEnd in tr.events {
      var ended, text := Event(ReasoningEnd, value, e.toolIndex), Event(TextChunk, value, e.toolIndex);
      AddressedOne(ended, slots);
      AddressedOne(text, slots);
      AddressedConcat([ended], [text], slots);
      assert [ended] + [text] == [ended, text];
    } else {
      var kind := ContentEvent(e.state);
      if kind.Some? {
        AddressedOne(Event(kind.value, value, e.toolIndex), slots);
      }
    }
  }

  /** Nothing is held while tool parsing is skipped. */
  predicate Steady(cfg: Config, e: Engine, slots: nat) {
    Counted(e, slots) && (e.holding ==> !cfg.skipToolParsing)
  }

  lemma TerminalCounted(cfg: Config, e: Engine, t: Terminal, value: string, slots: nat)
    requires Steady(cfg, e, slots)
    ensures var (e', events) := OnTerminal(cfg, e, t, value);
            Addressed(events, slots) && Steady(cfg, e', slots + Starts(events))
    decreases e.holding
  {
    var tr := Lookup(e.state, t);
    if tr.None? {
      if cfg.hasDrops && t.DropTerminal? {
      } else if e.holding {
        AbortCounted(e, Join(e.heldRaw), slots);
        var (restored, first) := AbortHold(e, Join(e.heldRaw));
        TerminalCounted(cfg, restored, t, value, slots);
        AddressedConcat(first, OnTerminal(cfg, restored, t, value).1, slots);
      } else {
        EmitCounted(cfg, e, value, slots);
      }
    } else if cfg.skipToolParsing && IsToolTerminal(t) {
      SkipCounted(e, tr.value, value, slots);
    } else {
      ApplyCounted(cfg, e, t, value, slots);
    }
  }

  lemma TokenCounted(cfg: Config, e: Engine, tok: Token, slots: nat)
    requires Steady(cfg, e, slots)
    ensures var (e', events) := OnToken(cfg, e, tok);
            Addressed(events, slots) && Steady(cfg, e', slots + Starts(events))
  {
    hide OnTerminal;
    match tok {
      case Term(t, value) => TerminalCounted(cfg, e, t, value, slots);
      case Text(value) => EmitCounted(cfg, e, value, slots);
    }
  }

  lemma {:induction false} RunCounted(cfg: Config, e: Engine, tokens: seq<Token>, slots: nat)
    requires Steady(cfg, e, slots)
    ensures var (e', events) := Run(cfg, e, tokens);
            Addressed(events, slots) && Steady(cfg, e', slots + Starts(events))
    decreases |tokens|
  {
    hide OnToken, Steady;
    if tokens != [] {
      TokenCounted(cfg, e, tokens[0], slots);
      var (mid, first) := OnToken(cfg, e, tokens[0]);
      RunCounted(cfg, mid, tokens[1..], slots + Starts(first));
      AddressedConcat(first, Run(cfg, mid, tokens[1..]).1, slots);
    }
  }

  lemma FinishCounted(e: Engine, slots: nat)
    requires Counted(e, slots)
    ensures Addressed(Finish(e).1, slots) && Starts(Finish(e).1) == 0
  {
    hide AbortHold;
    var (open, flushed) := if e.holding then AbortHold(e, Join(e.heldRaw)) else (e, []);
    if e.holding {
      AbortCounted(e, Join(e.heldRaw), slots);
    }
    var kind := if IsToolState(open.state) then ToolCallEnd else ReasoningEnd;
    var closing := Event(kind, "", open.toolIndex);
    if Finish(e).1 == flushed + [closing] {
      AddressedOne(closing, slots);
      AddressedConcat(flushed, [closing], slots);
    } else {
      assert flushed + [] == flushed;
    }
  }

  /** Every event of a whole response that starts outside a tool call addresses an existing slot,
      the latest one, and the starts number the slots consecutively. */
  lemma ResponseAddressed(cfg: Config, s: ParserState, tokens: seq<Token>)
    requires !s.ToolName? && !s.ToolArgs?
    ensures Addressed(ParseComplete(cfg, s, tokens).1, 0)
  {
    hide Run, Finish;
    assert Steady(cfg, Initial(s), 0);
    RunCounted(cfg, Initial(s), tokens, 0);
    var (last, events) := Run(cfg, Initial(s), tokens);
    FinishCounted(last, Starts(events));
    AddressedConcat(events, Finish(last).1, 0);
  }
}
