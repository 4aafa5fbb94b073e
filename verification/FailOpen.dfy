/** The fail-open policy for external cache lookups, a deadline per request and a circuit breaker,
    and the scheduler query that drives it.
 */
module FailOpen {
  import opened Wrappers

  datatype Reason = CircuitOpen | LookupInFlight | Deadline

  datatype Settings = Settings(timeout: real, breaker: real, threshold: nat, maxConcurrent: nat) {
    predicate Valid() {
      timeout > 0.0 && breaker > 0.0 && threshold > 0 && maxConcurrent > 0
    }
  }

  datatype Policy = Policy(deferred: map<string, real>, consecutive: nat, openUntil: real)

  const QUIET := Policy(map[], 0, 0.0)

  function CircuitBypass(cfg: Settings, p: Policy, req: string, now: real): (Policy, Option<Reason>) {
    if now < p.openUntil then (p.(deferred := p.deferred - {req}), Some(CircuitOpen))
    else if req !in p.deferred && |p.deferred| >= cfg.maxConcurrent then (p, Some(LookupInFlight))
    else (p, None)
  }

  function Bypass(cfg: Settings, p: Policy, req: string, now: real): (Policy, Option<Reason>) {
    var (checked, reason) := CircuitBypass(cfg, p, req, now);
    if reason.Some? then (checked, reason)
    else if req !in checked.deferred || now < checked.deferred[req] + cfg.timeout then (checked, None)
    else
      var late := checked.(deferred := checked.deferred - {req}, consecutive := checked.consecutive + 1);
      (if late.consecutive >= cfg.threshold then late.(openUntil := now + cfg.breaker) else late, Some(Deadline))
  }

  function Defer(p: Policy, req: string, startedAt: real): Policy {
    if req in p.deferred then p else p.(deferred := p.deferred[req := startedAt])
  }

  /** Whether a resolve closes the circuit and starts the count of deadlines afresh. */
  predicate Resets(p: Policy, req: string) {
    req in p.deferred || p.openUntil != 0.0
  }

  function Resolve(p: Policy, req: string): Policy {
    if Resets(p, req) then Policy(p.deferred - {req}, 0, 0.0) else p
  }

  class LookupFailOpenPolicy {
    const settings: Settings
    var deferred: map<string, real>
    var consecutiveTimeouts: nat
    var circuitOpenUntil: real
    var timeouts: nat
    var bypasses: nat

    ghost function View(): Policy
      reads this
    {
      Policy(deferred, consecutiveTimeouts, circuitOpenUntil)
    }

    constructor (settings: Settings)
      requires settings.Valid()
      ensures View() == QUIET && this.settings == settings
    {
      this.settings := settings;
      deferred, consecutiveTimeouts, circuitOpenUntil, timeouts, bypasses := map[], 0, 0.0, 0, 0;
    }

    /** Bypass new work while storage is unavailable or already being probed. */
    method CircuitBypassReason(req: string, now: real) returns (reason: Option<Reason>)
      modifies this`deferred, this`bypasses
      ensures (View(), reason) == CircuitBypass(settings, old(View()), req, now)
      ensures bypasses == old(bypasses) + if reason.Some? then 1 else 0
    {
      if now < circuitOpenUntil {
        deferred := deferred - {req};
        bypasses := bypasses + 1;
        return Some(CircuitOpen);
      }
      if req !in deferred && |deferred| >= settings.maxConcurrent {
        bypasses := bypasses + 1;
        return Some(LookupInFlight);
      }
      reason := None;
    }

    /** Why a request should go without the external cache, if it should. */
    method BypassReason(req: string, now: real) returns (reason: Option<Reason>)
      modifies this
      ensures (View(), reason) == Bypass(settings, old(View()), req, now)
      ensures timeouts == old(timeouts) + if reason == Some(Deadline) then 1 else 0
    {
      reason := CircuitBypassReason(req, now);
      if reason.Some? {
        return;
      }
      if req !in deferred || now < deferred[req] + settings.timeout {
        return None;
      }
      deferred := deferred - {req};
      consecutiveTimeouts, timeouts := consecutiveTimeouts + 1, timeouts + 1;
      if consecutiveTimeouts >= settings.threshold {
        circuitOpenUntil := now + settings.breaker;
      }
      reason := Some(Deadline);
    }

    /** Start a request's deadline; later calls do not move it. */
    method StartDeadline(req: string, startedAt: real)
      modifies this`deferred
      ensures View() == Defer(old(View()), req, startedAt)
    {
      if req !in deferred {
        deferred := deferred[req := startedAt];
      }
    }

    /** A healthy lookup; it closes a half-open circuit. */
    method ResolveLookup(req: string)
      modifies this`deferred, this`consecutiveTimeouts, this`circuitOpenUntil
      ensures View() == Resolve(old(View()), req)
    {
      var wasDeferred := req in deferred;
      deferred := deferred - {req};
      if wasDeferred || circuitOpenUntil != 0.0 {
        consecutiveTimeouts, circuitOpenUntil := 0, 0.0;
      }
    }

    method Finish(req: string)
      modifies this`deferred
      ensures View() == old(View()).(deferred := old(deferred) - {req})
    {
      deferred := deferred - {req};
    }
  }

  /** What the scheduler keeps of a request for this purpose. */
  datatype Status = Status(skips: bool, bypassed: bool, deferredSince: Option<real>, inTransfer: bool)

  /** What happened to the count of deadlines. */
  datatype Mark = Missed | Reset

  datatype Scheduler = Scheduler(policy: Policy, statuses: map<string, Status>, marks: seq<Mark>, clock: real)

  /** One scheduler query at time `at`; `found` is what the lookup, if made, answers, `started` and
      `checked` when it starts and when its deadline is checked. */
  datatype Event =
    | Arrive(req: string, skips: bool)
    | Query(req: string, at: real, started: real, checked: real, found: Option<nat>)
    | Transfer(req: string, busy: bool)
    | Leave(req: string)

  /** The reply to a query, absent for "ask again", whether a lookup was made for it, and whether it
      cancels the tiers' lookup work for the request, and then whether with its pins.
   */
  datatype Reply = Reply(tokens: Option<nat>, probed: bool, cancels: Option<bool>)

  predicate Can(s: Scheduler, e: Event) {
    match e
    case Arrive(_, _) => true
    case Query(req, at, started, checked, _) => req in s.statuses && s.clock <= at <= started <= checked
    case Transfer(req, _) => req in s.statuses
    case Leave(_) => true
  }

  /** The lookup found something, or that there is nothing. */
  function Found(s: Scheduler, req: string, checked: real): Scheduler
    requires req in s.statuses
  {
    Scheduler(Resolve(s.policy, req), s.statuses[req := s.statuses[req].(deferredSince := None)],
              if Resets(s.policy, req) then s.marks + [Reset] else s.marks, checked)
  }

  /** The lookup is not done: start or check the request's deadline. */
  function Waited(cfg: Settings, s: Scheduler, req: string, started: real, checked: real): (Scheduler, Reply)
    requires req in s.statuses
  {
    var status := s.statuses[req];
    var since := if status.deferredSince.Some? then status.deferredSince.value else started;
    var (policy, reason) := Bypass(cfg, Defer(s.policy, req, since), req, checked);
    if reason.Some? then
      (Scheduler(policy, s.statuses[req := status.(bypassed := true, deferredSince := None)],
                 if reason == Some(Deadline) then s.marks + [Missed] else s.marks, checked),
       Reply(Some(0), true, Some(true)))
    else
      (Scheduler(policy, s.statuses[req := status.(deferredSince := Some(since))], s.marks, checked),
       Reply(None, true, None))
  }

  function Queried(cfg: Settings, s: Scheduler, req: string, at: real, started: real, checked: real,
                   found: Option<nat>): (Scheduler, Reply)
    requires req in s.statuses
  {
    var status := s.statuses[req];
    if status.inTransfer then (s.(clock := checked), Reply(None, false, None))
    else if status.skips || status.bypassed then (s.(clock := checked), Reply(Some(0), false, None))
    else
      var (policy, reason) := CircuitBypass(cfg, s.policy, req, at);
      if reason.Some? then
        (Scheduler(policy, s.statuses[req := status.(bypassed := true)], s.marks, checked),
         Reply(Some(0), false, Some(true)))
      else if found.Some? then
        (Found(s.(policy := policy), req, checked), Reply(found, true, Some(found.value == 0)))
      else Waited(cfg, s.(policy := policy), req, started, checked)
  }

  function After(cfg: Settings, s: Scheduler, e: Event): Scheduler
    requires Can(s, e)
  {
    match e
    case Arrive(req, skips) => s.(statuses := s.statuses[req := Status(skips, false, None, false)])
    case Query(req, at, started, checked, found) => Queried(cfg, s, req, at, started, checked, found).0
    case Transfer(req, busy) => s.(statuses := s.statuses[req := s.statuses[req].(inTransfer := busy)])
    case Leave(req) =>
      s.(policy := s.policy.(deferred := s.policy.deferred - {req}),
         statuses := if req in s.statuses then s.statuses[req := s.statuses[req].(deferredSince := None)]
                     else s.statuses)
  }

  const IDLE := Scheduler(QUIET, map[], [], 0.0)

  predicate Legal(cfg: Settings, s: Scheduler, events: seq<Event>)
    decreases |events|
  {
    events == [] || (Can(s, events[0]) && Legal(cfg, After(cfg, s, events[0]), events[1..]))
  }

  function Exec(cfg: Settings, s: Scheduler, events: seq<Event>): Scheduler
    requires Legal(cfg, s, events)
    decreases |events|
  {
    if events == [] then s else Exec(cfg, After(cfg, s, events[0]), events[1..])
  }

  /** Deadlines missed since the count was last reset. */
  function MissedLately(marks: seq<Mark>): nat {
    if marks == [] || marks[|marks| - 1].Reset? then 0 else 1 + MissedLately(marks[..|marks| - 1])
  }

  /** A waiting request's deadline runs from its first deferral at the latest. */
  predicate Waiting(p: Policy, req: string, status: Status) {
    !status.bypassed && status.deferredSince.Some? ==>
      req in p.deferred && p.deferred[req] <= status.deferredSince.value
  }

  ghost predicate AllWait(p: Policy, statuses: map<string, Status>) {
    forall req :: req in statuses ==> Waiting(p, req, statuses[req])
  }

  predicate Past(p: Policy, clock: real) {
    forall req :: req in p.deferred ==> p.deferred[req] <= clock
  }

  ghost predicate Counted(cfg: Settings, p: Policy, marks: seq<Mark>) {
    p.consecutive == MissedLately(marks) && (p.openUntil != 0.0 ==> p.consecutive >= cfg.threshold)
  }

  ghost predicate Inv(cfg: Settings, s: Scheduler) {
    && |s.policy.deferred| <= cfg.maxConcurrent
    && AllWait(s.policy, s.statuses)
    && Past(s.policy, s.clock)
    && Counted(cfg, s.policy, s.marks)
  }

  lemma RemovedSmaller<K, V>(m: map<K, V>, k: K)
    ensures |m - {k}| <= |m| && (k in m ==> |m - {k}| == |m| - 1)
  {
    if k in m {
      assert (m - {k}).Keys == m.Keys - {k};
    } else {
      assert m - {k} == m;
    }
  }

  lemma AddedLarger<K, V>(m: map<K, V>, k: K, v: V)
    requires k !in m
    ensures |m[k := v]| == |m| + 1
  {
    assert m[k := v].Keys == m.Keys + {k};
  }

  lemma MissedMore(marks: seq<Mark>)
    ensures MissedLately(marks + [Missed]) == MissedLately(marks) + 1
    ensures MissedLately(marks + [Reset]) == 0
  {
    assert (marks + [Missed])[..|marks|] == marks;
  }

  lemma DeferBounded(cfg: Settings, p: Policy, req: string, startedAt: real)
    requires |p.deferred| <= cfg.maxConcurrent && (req in p.deferred || |p.deferred| < cfg.maxConcurrent)
    ensures |Defer(p, req, startedAt).deferred| <= cfg.maxConcurrent && req in Defer(p, req, startedAt).deferred
  {
    if req !in p.deferred {
      AddedLarger(p.deferred, req, startedAt);
    }
  }

  lemma BypassBounded(cfg: Settings, p: Policy, req: string, now: real)
    ensures |Bypass(cfg, p, req, now).0.deferred| <= |p.deferred|
    ensures |CircuitBypass(cfg, p, req, now).0.deferred| <= |p.deferred|
  {
    RemovedSmaller(p.deferred, req);
  }

  lemma BypassCounted(cfg: Settings, p: Policy, req: string, now: real, marks: seq<Mark>)
    requires Counted(cfg, p, marks)
    ensures var (next, reason) := Bypass(cfg, p, req, now);
            Counted(cfg, next, if reason == Some(Deadline) then marks + [Missed] else marks)
  {
    MissedMore(marks);
  }

  /** A deadline check without effect changes nothing; in any case it changes nobody else's. */
  lemma BypassTouches(cfg: Settings, p: Policy, req: string, now: real)
    ensures var (next, reason) := Bypass(cfg, p, req, now);
            && (reason.None? ==> next == p)
            && (forall other :: other in next.deferred ==>
                  other in p.deferred && next.deferred[other] == p.deferred[other])
            && (forall other :: other != req && other in p.deferred ==> other in next.deferred)
  {
  }

  lemma ResolveCounted(cfg: Settings, p: Policy, req: string, marks: seq<Mark>)
    requires Counted(cfg, p, marks)
    ensures Counted(cfg, Resolve(p, req), if Resets(p, req) then marks + [Reset] else marks)
  {
    MissedMore(marks);
  }

  /** A step of one request leaves the others waiting. */
  lemma OthersWait(p: Policy, next: Policy, statuses: map<string, Status>, req: string, status: Status)
    requires AllWait(p, statuses) && Waiting(next, req, status)
    requires forall other :: other != req && other in p.deferred ==>
                               other in next.deferred && next.deferred[other] == p.deferred[other]
    ensures AllWait(next, statuses[req := status])
  {
    forall other | other in statuses && other != req ensures Waiting(next, other, statuses[other]) {
      assert Waiting(p, other, statuses[other]);
    }
  }

  lemma WaitedBounded(cfg: Settings, s: Scheduler, req: string, started: real, checked: real)
    requires Inv(cfg, s) && req in s.statuses && s.clock <= started <= checked && !s.statuses[req].bypassed
    requires req in s.policy.deferred || |s.policy.deferred| < cfg.maxConcurrent
    ensures var next := Waited(cfg, s, req, started, checked).0;
            |next.policy.deferred| <= cfg.maxConcurrent && Past(next.policy, next.clock)
  {
    hide AllWait, Bypass, Counted;
    var status := s.statuses[req];
    var since := if status.deferredSince.Some? then status.deferredSince.value else started;
    var deferred := Defer(s.policy, req, since);
    StatusWaits(s.policy, s.statuses, req);
    DeferBounded(cfg, s.policy, req, since);
    BypassBounded(cfg, deferred, req, checked);
    BypassTouches(cfg, deferred, req, checked);
  }

  lemma WaitedCounted(cfg: Settings, s: Scheduler, req: string, started: real, checked: real)
    requires Inv(cfg, s) && req in s.statuses && s.clock <= started <= checked && !s.statuses[req].bypassed
    requires req in s.policy.deferred || |s.policy.deferred| < cfg.maxConcurrent
    ensures var next := Waited(cfg, s, req, started, checked).0;
            Counted(cfg, next.policy, next.marks)
  {
    hide AllWait, Past, Bypass;
    var status := s.statuses[req];
    var since := if status.deferredSince.Some? then status.deferredSince.value else started;
    var deferred := Defer(s.policy, req, since);
    BypassCounted(cfg, deferred, req, checked, s.marks);
    BypassTouches(cfg, deferred, req, checked);
  }

  lemma WaitedWaits(cfg: Settings, s: Scheduler, req: string, started: real, checked: real)
    requires Inv(cfg, s) && req in s.statuses && s.clock <= started <= checked && !s.statuses[req].bypassed
    requires req in s.policy.deferred || |s.policy.deferred| < cfg.maxConcurrent
    ensures var next := Waited(cfg, s, req, started, checked).0;
            AllWait(next.policy, next.statuses)
  {
    hide AllWait, Bypass, Counted;
    var status := s.statuses[req];
    var since := if status.deferredSince.Some? then status.deferredSince.value else started;
    var deferred := Defer(s.policy, req, since);
    var next := Waited(cfg, s, req, started, checked).0;
    BypassTouches(cfg, deferred, req, checked);
    StatusWaits(s.policy, s.statuses, req);
    assert req in deferred.deferred && deferred.deferred[req] <= since;
    if Bypass(cfg, deferred, req, checked).1.None? {
      assert next.policy == deferred && next.statuses[req].deferredSince == Some(since);
    } else {
      assert next.statuses[req].bypassed;
    }
    OthersWait(s.policy, next.policy, s.statuses, req, next.statuses[req]);
  }

  lemma WaitedKeeps(cfg: Settings, s: Scheduler, req: string, started: real, checked: real)
    requires Inv(cfg, s) && req in s.statuses && s.clock <= started <= checked && !s.statuses[req].bypassed
    requires req in s.policy.deferred || |s.policy.deferred| < cfg.maxConcurrent
    ensures Inv(cfg, Waited(cfg, s, req, started, checked).0)
  {
    hide AllWait, Past, Counted, Waited;
    WaitedBounded(cfg, s, req, started, checked);
    WaitedCounted(cfg, s, req, started, checked);
    WaitedWaits(cfg, s, req, started, checked);
  }

  lemma StatusWaits(p: Policy, statuses: map<string, Status>, req: string)
    requires AllWait(p, statuses) && req in statuses
    ensures Waiting(p, req, statuses[req])
  {
  }

  lemma FoundKeeps(cfg: Settings, s: Scheduler, req: string, checked: real)
    requires Inv(cfg, s) && req in s.statuses && s.clock <= checked
    ensures Inv(cfg, Found(s, req, checked))
  {
    hide AllWait, Counted;
    var next := Found(s, req, checked);
    RemovedSmaller(s.policy.deferred, req);
    ResolveCounted(cfg, s.policy, req, s.marks);
    OthersWait(s.policy, next.policy, s.statuses, req, next.statuses[req]);
  }

  lemma CircuitKeeps(cfg: Settings, s: Scheduler, req: string, at: real)
    requires Inv(cfg, s) && req in s.statuses
    ensures var (policy, reason) := CircuitBypass(cfg, s.policy, req, at);
            if reason.Some?
            then Inv(cfg, s.(policy := policy, statuses := s.statuses[req := s.statuses[req].(bypassed := true)]))
            else policy == s.policy && (req in policy.deferred || |policy.deferred| < cfg.maxConcurrent)
  {
    hide AllWait;
    var (policy, reason) := CircuitBypass(cfg, s.policy, req, at);
    BypassBounded(cfg, s.policy, req, at);
    if reason.Some? {
      OthersWait(s.policy, policy, s.statuses, req, s.statuses[req].(bypassed := true));
    }
  }

  lemma QueryKeeps(cfg: Settings, s: Scheduler, req: string, at: real, started: real, checked: real, found: Option<nat>)
    requires Inv(cfg, s) && Can(s, Query(req, at, started, checked, found))
    ensures Inv(cfg, Queried(cfg, s, req, at, started, checked, found).0)
  {
    hide AllWait, Counted, CircuitBypass, Waited, Found;
    CircuitKeeps(cfg, s, req, at);
    var status := s.statuses[req];
    if !status.inTransfer && !status.skips && !status.bypassed && CircuitBypass(cfg, s.policy, req, at).1.None? {
      if found.Some? {
        FoundKeeps(cfg, s, req, checked);
      } else {
        WaitedKeeps(cfg, s, req, started, checked);
      }
    }
  }

  lemma LeaveKeeps(cfg: Settings, s: Scheduler, req: string)
    requires Inv(cfg, s)
    ensures Inv(cfg, After(cfg, s, Leave(req)))
  {
    var next := After(cfg, s, Leave(req));
    RemovedSmaller(s.policy.deferred, req);
    forall other | other in next.statuses ensures Waiting(next.policy, other, next.statuses[other]) {
      assert other != req ==> Waiting(s.policy, other, s.statuses[other]);
    }
  }

  lemma StepKeeps(cfg: Settings, s: Scheduler, e: Event)
    requires Inv(cfg, s) && Can(s, e)
    ensures Inv(cfg, After(cfg, s, e))
  {
    hide AllWait, Counted, Queried;
    match e {
      case Query(req, at, started, checked, found) => QueryKeeps(cfg, s, req, at, started, checked, found);
      case Leave(req) => LeaveKeeps(cfg, s, req);
      case Arrive(req, skips) => OthersWait(s.policy, s.policy, s.statuses, req, Status(skips, false, None, false));
      case Transfer(req, busy) =>
        StatusWaits(s.policy, s.statuses, req);
        OthersWait(s.policy, s.policy, s.statuses, req, s.statuses[req].(inTransfer := busy));
    }
  }

  lemma {:induction false} RunKeeps(cfg: Settings, s: Scheduler, events: seq<Event>)
    requires Inv(cfg, s) && Legal(cfg, s, events)
    ensures Inv(cfg, Exec(cfg, s, events))
    decreases |events|
  {
    hide Inv, Can, After;
    if events != [] {
      StepKeeps(cfg, s, events[0]);
      RunKeeps(cfg, After(cfg, s, events[0]), events[1..]);
    }
  }

  /** Over every run: no more requests are deferred than may be probing at once, and the circuit is
      open only after as many deadlines, since the last resolve that reset the count, as the threshold. */
  lemma RunsBounded(cfg: Settings, events: seq<Event>)
    requires Legal(cfg, IDLE, events)
    ensures var s := Exec(cfg, IDLE, events);
            && |s.policy.deferred| <= cfg.maxConcurrent
            && (s.policy.openUntil != 0.0 ==> MissedLately(s.marks) >= cfg.threshold)
  {
    RunKeeps(cfg, IDLE, events);
  }

  /** After every run, a query of a request with no transfer in flight, whose first deferral lies the
      timeout or more back, gets a definite answer. */
  lemma DeadlineAnswers(cfg: Settings, events: seq<Event>, req: string, at: real, started: real, checked: real,
                        found: Option<nat>)
    requires Legal(cfg, IDLE, events) && Can(Exec(cfg, IDLE, events), Query(req, at, started, checked, found))
    requires var status := Exec(cfg, IDLE, events).statuses[req];
             !status.inTransfer && status.deferredSince.Some? && checked >= status.deferredSince.value + cfg.timeout
    ensures Queried(cfg, Exec(cfg, IDLE, events), req, at, started, checked, found).1.tokens.Some?
  {
    RunKeeps(cfg, IDLE, events);
    hide Legal, Exec;
    var s := Exec(cfg, IDLE, events);
    StatusWaits(s.policy, s.statuses, req);
    AnswersLate(cfg, s, req, at, started, checked, found);
  }

  lemma AnswersLate(cfg: Settings, s: Scheduler, req: string, at: real, started: real, checked: real,
                    found: Option<nat>)
    requires req in s.statuses && Waiting(s.policy, req, s.statuses[req])
    requires var status := s.statuses[req];
             !status.inTransfer && status.deferredSince.Some? && checked >= status.deferredSince.value + cfg.timeout
    ensures Queried(cfg, s, req, at, started, checked, found).1.tokens.Some?
  {
    var status := s.statuses[req];
    if !status.bypassed {
      assert Defer(s.policy, req, status.deferredSince.value) == s.policy;
      assert checked >= s.policy.deferred[req] + cfg.timeout;
    }
  }

  /** While the circuit is open, and once a request has been bypassed, no lookup is made. */
  lemma BypassedIsNotProbed(cfg: Settings, s: Scheduler, req: string, at: real, started: real, checked: real,
                            found: Option<nat>)
    requires Can(s, Query(req, at, started, checked, found))
    requires s.statuses[req].bypassed || at < s.policy.openUntil
    ensures !Queried(cfg, s, req, at, started, checked, found).1.probed
  {
  }

  /** The request may be served from the external cache, as far as it goes. */
  predicate Free(status: Status) {
    !status.inTransfer && !status.skips && !status.bypassed
  }

  /** Others have as many lookups deferred as may be at once. */
  predicate Crowded(cfg: Settings, p: Policy, req: string) {
    req !in p.deferred && |p.deferred| >= cfg.maxConcurrent
  }

  /** When the deadline of a request runs from: its first deferral, or this one. */
  function WaitsSince(s: Scheduler, req: string, started: real): real
    requires req in s.statuses
  {
    if req in s.policy.deferred then s.policy.deferred[req] else started
  }

  /** A lookup is made for a free request while the circuit is closed and others leave room, and for no other. */
  lemma ProbedIff(cfg: Settings, s: Scheduler, req: string, at: real, started: real, checked: real,
                  found: Option<nat>)
    requires Can(s, Query(req, at, started, checked, found))
    ensures var (next, reply) := Queried(cfg, s, req, at, started, checked, found);
            && (reply.probed <==>
                  Free(s.statuses[req]) && at >= s.policy.openUntil && !Crowded(cfg, s.policy, req))
            && (!reply.probed ==>
                  && next.marks == s.marks && next.policy.openUntil == s.policy.openUntil
                  && reply.tokens == if s.statuses[req].inTransfer then None else Some(0))
            && (!reply.probed && Free(s.statuses[req]) ==> next.statuses[req].bypassed)
  {
  }

  /** A request that arrives, and may read the cache, has a lookup made for it by its first query, while the circuit
      is closed and others leave room. */
  lemma ArrivalIsProbed(cfg: Settings, s: Scheduler, req: string, skips: bool, at: real, started: real, checked: real,
                        found: Option<nat>)
    requires Can(After(cfg, s, Arrive(req, skips)), Query(req, at, started, checked, found))
    requires at >= s.policy.openUntil && !Crowded(cfg, s.policy, req)
    ensures Queried(cfg, After(cfg, s, Arrive(req, skips)), req, at, started, checked, found).1.probed <==> !skips
  {
    ProbedIff(cfg, After(cfg, s, Arrive(req, skips)), req, at, started, checked, found);
  }

  /** After every run: a lookup that finds something, or that there is nothing, is answered with just that; pins
      go if and only if it is nothing; the request waits no more, and if any deadline was running for it or the
      circuit had opened, the count of deadlines starts afresh and the circuit is closed. */
  lemma FoundIsAnswered(cfg: Settings, events: seq<Event>, req: string, at: real, started: real, checked: real,
                        found: Option<nat>)
    requires Legal(cfg, IDLE, events) && Can(Exec(cfg, IDLE, events), Query(req, at, started, checked, found))
    requires var s := Exec(cfg, IDLE, events);
             Free(s.statuses[req]) && at >= s.policy.openUntil && !Crowded(cfg, s.policy, req) && found.Some?
    ensures var s := Exec(cfg, IDLE, events);
            var (next, reply) := Queried(cfg, s, req, at, started, checked, found);
            && reply.tokens == found && reply.cancels == Some(found.value == 0)
            && !next.statuses[req].bypassed && req !in next.policy.deferred && next.policy.openUntil == 0.0
            && MissedLately(next.marks) == if req in s.policy.deferred || s.policy.openUntil != 0.0 then 0
                                           else MissedLately(s.marks)
  {
    hide Legal, Exec;
    var s := Exec(cfg, IDLE, events);
    MissedMore(s.marks);
  }

  /** Before the deadline the request waits on, and nothing is counted; at or past it the request is given up, which
      counts, and opens the circuit once the count has reached the threshold. */
  predicate WaitsOrGivesUp(cfg: Settings, s: Scheduler, req: string, started: real, checked: real, next: Scheduler,
                           reply: Reply)
    requires req in s.statuses && req in next.statuses
  {
    var since := WaitsSince(s, req, started);
    if checked < since + cfg.timeout then
      && reply.tokens == None && reply.cancels == None && !next.statuses[req].bypassed
      && WaitsSince(next, req, checked) == since && next.marks == s.marks
      && next.policy.openUntil == s.policy.openUntil
    else
      && reply.tokens == Some(0) && reply.cancels == Some(true) && next.statuses[req].bypassed
      && req !in next.policy.deferred && next.marks == s.marks + [Missed]
      && next.policy.openUntil == if MissedLately(next.marks) >= cfg.threshold then checked + cfg.breaker
                                  else s.policy.openUntil
  }

  /** After every run: a lookup that is not done waits, unless its deadline has passed, which runs from its first
      deferral; then the request is given up, and the threshold-th such deadline since the count started opens the
      circuit for the breaker's time. */
  lemma UndoneWaitsIff(cfg: Settings, events: seq<Event>, req: string, at: real, started: real, checked: real)
    requires Legal(cfg, IDLE, events) && Can(Exec(cfg, IDLE, events), Query(req, at, started, checked, None))
    requires cfg.Valid()
    requires var s := Exec(cfg, IDLE, events);
             Free(s.statuses[req]) && at >= s.policy.openUntil && !Crowded(cfg, s.policy, req)
    ensures var s := Exec(cfg, IDLE, events);
            var (next, reply) := Queried(cfg, s, req, at, started, checked, None);
            req in next.statuses && WaitsOrGivesUp(cfg, s, req, started, checked, next, reply)
  {
    RunKeeps(cfg, IDLE, events);
    hide Legal, Exec;
    var s := Exec(cfg, IDLE, events);
    MissedMore(s.marks);
    StatusWaits(s.policy, s.statuses, req);
    DeferBounded(cfg, s.policy, req, started);
    UndoneOf(cfg, s, req, at, started, checked);
  }

  lemma UndoneOf(cfg: Settings, s: Scheduler, req: string, at: real, started: real, checked: real)
    requires Can(s, Query(req, at, started, checked, None)) && cfg.Valid() && Counted(cfg, s.policy, s.marks)
    requires Free(s.statuses[req]) && at >= s.policy.openUntil && !Crowded(cfg, s.policy, req)
    requires Waiting(s.policy, req, s.statuses[req])
    requires MissedLately(s.marks + [Missed]) == MissedLately(s.marks) + 1
    ensures var (next, reply) := Queried(cfg, s, req, at, started, checked, None);
            req in next.statuses && WaitsOrGivesUp(cfg, s, req, started, checked, next, reply)
  {
  }

  /** Every query of a run is made before this time. */
  predicate AllBefore(events: seq<Event>, time: real) {
    forall i :: 0 <= i < |events| && events[i].Query? ==> events[i].at < time
  }

  /** No query of a run makes a lookup. */
  predicate NoneProbed(cfg: Settings, s: Scheduler, events: seq<Event>)
    requires Legal(cfg, s, events)
    decreases |events|
  {
    events == [] ||
    (!Probes(cfg, s, events[0]) && NoneProbed(cfg, After(cfg, s, events[0]), events[1..]))
  }

  predicate Probes(cfg: Settings, s: Scheduler, e: Event)
    requires Can(s, e)
  {
    e.Query? && Queried(cfg, s, e.req, e.at, e.started, e.checked, e.found).1.probed
  }

  /** A circuit that has opened stays so for its time: no query of any run within it makes a lookup or closes it. */
  lemma {:induction false} StaysShut(cfg: Settings, s: Scheduler, events: seq<Event>)
    requires Legal(cfg, s, events) && AllBefore(events, s.policy.openUntil)
    ensures NoneProbed(cfg, s, events) && Exec(cfg, s, events).policy.openUntil == s.policy.openUntil
    decreases |events|
  {
    hide Can, After, Probes;
    if events != [] {
      ShutOnce(cfg, s, events[0]);
      forall i | 0 <= i < |events[1..]| ensures events[1..][i] == events[i + 1] {
      }
      StaysShut(cfg, After(cfg, s, events[0]), events[1..]);
    }
  }

  lemma ShutOnce(cfg: Settings, s: Scheduler, e: Event)
    requires Can(s, e) && (e.Query? ==> e.at < s.policy.openUntil)
    ensures !Probes(cfg, s, e) && After(cfg, s, e).policy.openUntil == s.policy.openUntil
  {
    if e.Query? {
      ProbedIff(cfg, s, e.req, e.at, e.started, e.checked, e.found);
    }
  }

  /** Over every run: the deadline that is the threshold-th since the count started afresh keeps every query away
      from the tiers for the breaker's time. */
  lemma ThresholdTrips(cfg: Settings, before: seq<Event>, req: string, at: real, started: real, checked: real,
                       more: seq<Event>)
    requires cfg.Valid() && Legal(cfg, IDLE, before)
    requires Can(Exec(cfg, IDLE, before), Query(req, at, started, checked, None))
    requires var s := Exec(cfg, IDLE, before);
             && Free(s.statuses[req]) && at >= s.policy.openUntil && !Crowded(cfg, s.policy, req)
             && checked >= WaitsSince(s, req, started) + cfg.timeout && MissedLately(s.marks) + 1 >= cfg.threshold
    requires Legal(cfg, Queried(cfg, Exec(cfg, IDLE, before), req, at, started, checked, None).0, more)
    requires AllBefore(more, checked + cfg.breaker)
    ensures NoneProbed(cfg, Queried(cfg, Exec(cfg, IDLE, before), req, at, started, checked, None).0, more)
  {
    hide Legal, Exec, Queried;
    UndoneWaitsIff(cfg, before, req, at, started, checked);
    MissedMore(Exec(cfg, IDLE, before).marks);
    StaysShut(cfg, Queried(cfg, Exec(cfg, IDLE, before), req, at, started, checked, None).0, more);
  }

  predicate Queries(events: seq<Event>, req: string) {
    exists i :: 0 <= i < |events| && events[i].Query? && events[i].req == req
  }

  /** A request that has left takes no room from others in any run in which it is not queried again. */
  lemma LeftTakesNoRoom(cfg: Settings, s: Scheduler, events: seq<Event>, req: string)
    requires Legal(cfg, After(cfg, s, Leave(req)), events) && !Queries(events, req)
    ensures req !in Exec(cfg, After(cfg, s, Leave(req)), events).policy.deferred
  {
    StaysUndeferred(cfg, After(cfg, s, Leave(req)), events, req);
  }

  lemma {:induction false} StaysUndeferred(cfg: Settings, s: Scheduler, events: seq<Event>, req: string)
    requires Legal(cfg, s, events) && !Queries(events, req) && req !in s.policy.deferred
    ensures req !in Exec(cfg, s, events).policy.deferred
    decreases |events|
  {
    hide Can, After;
    if events != [] {
      assert !(events[0].Query? && events[0].req == req);
      OthersDeferNone(cfg, s, events[0], req);
      forall i | 0 <= i < |events[1..]| ensures events[1..][i] == events[i + 1] {
      }
      StaysUndeferred(cfg, After(cfg, s, events[0]), events[1..], req);
    }
  }

  lemma OthersDeferNone(cfg: Settings, s: Scheduler, e: Event, req: string)
    requires Can(s, e) && !(e.Query? && e.req == req) && req !in s.policy.deferred
    ensures req !in After(cfg, s, e).policy.deferred
  {
  }

  /** The tiers' work for a request is cancelled by exactly the query that decides it, and its pins go
      unless tokens are to be loaded; giving a request up cancels it with its pins.
   */
  lemma DecidedCancels(cfg: Settings, s: Scheduler, req: string, at: real, started: real, checked: real,
                       found: Option<nat>)
    requires Can(s, Query(req, at, started, checked, found))
    ensures var status := s.statuses[req];
            var (next, reply) := Queried(cfg, s, req, at, started, checked, found);
            && (reply.cancels.Some? <==>
                  !status.inTransfer && !status.skips && !status.bypassed && reply.tokens.Some?)
            && (reply.cancels.Some? ==> reply.tokens.Some? && (reply.cancels.value <==> reply.tokens.value == 0))
            && (!status.bypassed && next.statuses[req].bypassed ==> reply.cancels == Some(true))
  {
  }

  /** Some query of this run cancels the tiers' work for the request with its pins. */
  predicate Cancelled(cfg: Settings, s: Scheduler, events: seq<Event>, req: string)
    requires Legal(cfg, s, events)
    decreases |events|
  {
    events != [] && (CancelsAll(cfg, s, events[0], req) || Cancelled(cfg, After(cfg, s, events[0]), events[1..], req))
  }

  predicate CancelsAll(cfg: Settings, s: Scheduler, e: Event, req: string)
    requires Can(s, e)
  {
    && e.Query? && e.req == req
    && Queried(cfg, s, req, e.at, e.started, e.checked, e.found).1.cancels == Some(true)
  }

  predicate GivenUp(s: Scheduler, req: string) {
    req in s.statuses && s.statuses[req].bypassed
  }

  /** Over every run: a request that ends bypassed without having been so had the tiers' work for it
      cancelled and its pins released on the way.
   */
  lemma {:induction false} GivenUpIsCancelled(cfg: Settings, s: Scheduler, events: seq<Event>, req: string)
    requires Legal(cfg, s, events) && !GivenUp(s, req) && GivenUp(Exec(cfg, s, events), req)
    ensures Cancelled(cfg, s, events, req)
    decreases |events|
  {
    hide Can, After, CancelsAll;
    if events != [] && !CancelsAll(cfg, s, events[0], req) {
      StaysOpen(cfg, s, events[0], req);
      GivenUpIsCancelled(cfg, After(cfg, s, events[0]), events[1..], req);
    }
  }

  lemma StaysOpen(cfg: Settings, s: Scheduler, e: Event, req: string)
    requires Can(s, e) && !GivenUp(s, req) && !CancelsAll(cfg, s, e, req)
    ensures !GivenUp(After(cfg, s, e), req)
  {
    if e.Query? && e.req == req {
      DecidedCancels(cfg, s, req, e.at, e.started, e.checked, e.found);
    }
  }

  predicate Arrives(events: seq<Event>, req: string) {
    exists i :: 0 <= i < |events| && events[i].Arrive? && events[i].req == req
  }

  /** A bypassed request stays bypassed through every run in which it does not arrive anew, so it is
      never probed again. */
  lemma {:induction false} BypassedForGood(cfg: Settings, s: Scheduler, events: seq<Event>, req: string)
    requires Legal(cfg, s, events) && req in s.statuses && s.statuses[req].bypassed && !Arrives(events, req)
    ensures req in Exec(cfg, s, events).statuses && Exec(cfg, s, events).statuses[req].bypassed
    decreases |events|
  {
    hide Can, After;
    if events != [] {
      assert !(events[0].Arrive? && events[0].req == req);
      StaysBypassed(cfg, s, events[0], req);
      forall i | 0 <= i < |events[1..]| ensures events[1..][i] == events[i + 1] {
      }
      BypassedForGood(cfg, After(cfg, s, events[0]), events[1..], req);
    }
  }

  lemma StaysBypassed(cfg: Settings, s: Scheduler, e: Event, req: string)
    requires Can(s, e) && req in s.statuses && s.statuses[req].bypassed && !(e.Arrive? && e.req == req)
    ensures req in After(cfg, s, e).statuses && After(cfg, s, e).statuses[req].bypassed
  {
  }

  /** The part of the connector's scheduler that asks for external cache hits. */
  class OffloadingScheduler {
    const lookupFailOpen: LookupFailOpenPolicy
    var reqStatus: map<string, Status>
    /** What became of the deadlines so far. */
    ghost var marks: seq<Mark>
    ghost var clock: real

    ghost function View(): Scheduler
      reads this, lookupFailOpen
    {
      Scheduler(lookupFailOpen.View(), reqStatus, marks, clock)
    }

    constructor (settings: Settings)
      requires settings.Valid()
      ensures View() == IDLE && fresh(lookupFailOpen) && lookupFailOpen.settings == settings
    {
      lookupFailOpen := new LookupFailOpenPolicy(settings);
      reqStatus, marks, clock := map[], [], 0.0;
    }

    method OnNewRequest(req: string, skips: bool)
      modifies this`reqStatus
      ensures View() == After(lookupFailOpen.settings, old(View()), Arrive(req, skips))
    {
      reqStatus := reqStatus[req := Status(skips, false, None, false)];
    }

    /** The tokens that can be loaded, if that is known, and what to cancel in the tiers; `found` is the
        lookup's answer.
     */
    method GetNumNewMatchedTokens(req: string, at: real, started: real, checked: real, found: Option<nat>)
        returns (tokens: Option<nat>, cancels: Option<bool>, ghost probed: bool)
      requires req in reqStatus
      modifies this, lookupFailOpen
      ensures (View(), Reply(tokens, probed, cancels)) ==
                Queried(lookupFailOpen.settings, old(View()), req, at, started, checked, found)
    {
      clock := checked;
      var status := reqStatus[req];
      if status.inTransfer {
        return None, None, false;
      }
      if status.skips || status.bypassed {
        return Some(0), None, false;
      }
      var reason := lookupFailOpen.CircuitBypassReason(req, at);
      if reason.Some? {
        reqStatus := reqStatus[req := status.(bypassed := true)];
        return Some(0), Some(true), false;
      }
      probed := true;
      if found.Some? {
        marks := if Resets(lookupFailOpen.View(), req) then marks + [Reset] else marks;
        lookupFailOpen.ResolveLookup(req);
        reqStatus := reqStatus[req := status.(deferredSince := None)];
        return found, Some(found.value == 0), true;
      }
      tokens, cancels := AwaitLookup(req, started, checked);
    }

    /** Start the request's deadline, if it has none, and give up if it has passed. */
    method AwaitLookup(req: string, started: real, checked: real)
        returns (tokens: Option<nat>, cancels: Option<bool>)
      requires req in reqStatus
      modifies this`reqStatus, this`marks, this`clock, lookupFailOpen
      ensures (View(), Reply(tokens, true, cancels)) ==
                Waited(lookupFailOpen.settings, old(View()), req, started, checked)
    {
      clock := checked;
      var status := reqStatus[req];
      if status.deferredSince.None? {
        status := status.(deferredSince := Some(started));
      }
      lookupFailOpen.StartDeadline(req, status.deferredSince.value);
      var reason := lookupFailOpen.BypassReason(req, checked);
      if reason.Some? {
        status := status.(bypassed := true, deferredSince := None);
        marks := if reason == Some(Deadline) then marks + [Missed] else marks;
        tokens, cancels := Some(0), Some(true);
      } else {
        tokens, cancels := None, None;
      }
      reqStatus := reqStatus[req := status];
    }

    method RequestFinished(req: string)
      modifies this`reqStatus, lookupFailOpen
      ensures View() == After(lookupFailOpen.settings, old(View()), Leave(req))
    {
      lookupFailOpen.Finish(req);
      if req in reqStatus {
        reqStatus := reqStatus[req := reqStatus[req].(deferredSince := None)];
      }
    }
  }
}
