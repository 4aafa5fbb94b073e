/** Any number of processes sharing one cache through the eviction gate: one transition per
    lock call, with crashes, relaunches, deletion workers and stores, in any interleaving.
 */
module EvictionProtocol {
  import opened Flock
  import opened EvictionGate
  import opened Wrappers

  /** A live process: its gate, and the tier manager's view of its eviction.
      `ready` is the moment between a granted fence and the submission it allows. */
  datatype Proc = Proc(gate: Gate, active: bool, ready: bool, running: nat, undrained: nat, stopping: bool) {
    /** What the eviction worker counts as outstanding. */
    function Outstanding(): nat {
      running + undrained
    }

    /** A deletion runs, or has run and is not yet accounted for by a manager still in service. */
    predicate Deleting() {
      running > 0 || (undrained > 0 && !stopping)
    }
  }

  datatype Host = Host(intent: Lock<Fd>, writes: Lock<Fd>, procs: map<nat, Proc>)

  const LAUNCHED := Proc(FRESH, false, false, 0, 0, false)

  const BOOTED := Host(Shared({}), Shared({}), map[])

  datatype Action =
    | GateCall(pid: nat, step: Step)
    | Refence(pid: nat)
    | Submit(pid: nat)
    | NothingEvictable(pid: nat)
    | DeletionEnds(pid: nat)
    | Drain(pid: nat, count: nat)
    | Launch(pid: nat)
    | Crash(pid: nat)
    | Reap(fd: Fd)

  /** When the manager makes a gate call. */
  predicate ManagerAllows(p: Proc, step: Step) {
    match step
    case TakeIntent(_) => !p.active && !p.ready && !p.stopping
    case Fence(_) => p.active && p.Outstanding() == 0 && !p.ready && !p.stopping
    case LiftFence(closing) =>
      !p.ready && !p.stopping && if closing then p.running == 0 else p.active && p.Outstanding() == 0
    case LiftIntent => true
    case CloseLease => true
    case _ => !p.stopping || p.gate.call.Probed? || p.gate.call.Unprobing?
  }

  function ProcAfter(p: Proc, step: Step): Proc {
    var q := p.(gate := After(p.gate, step));
    match step
    case TakeIntent(granted) => q.(active := granted)
    case Fence(granted) => q.(ready := granted)
    case LiftFence(closing) => if closing then q.(stopping := true) else q.(active := false)
    case _ => q
  }

  /** What a process's manager may do next, whatever its lock calls are answered. */
  predicate May(p: Proc, a: Action) {
    match a
    case GateCall(_, step) => Can(p.gate, step) && ManagerAllows(p, step)
    case Refence(_) =>
      p.active && p.Outstanding() == 0 && p.gate.fenced && p.gate.call.Idle? && !p.ready && !p.stopping
    case Submit(_) => p.ready
    case NothingEvictable(_) => p.ready
    case DeletionEnds(_) => p.running > 0
    case Drain(_, count) => count <= p.undrained
    case _ => false
  }

  function Moved(p: Proc, a: Action): Proc
    requires May(p, a)
  {
    match a
    case GateCall(_, step) => ProcAfter(p, step)
    case Refence(_) => p.(ready := true)
    case Submit(_) => p.(ready := false, running := p.running + 1)
    case NothingEvictable(_) => p.(ready := false)
    case DeletionEnds(_) => p.(running := p.running - 1, undrained := p.undrained + 1)
    case Drain(_, count) => p.(undrained := p.undrained - count)
  }

  predicate Enabled(h: Host, a: Action) {
    match a
    case Launch(pid) => pid !in h.procs && Unheld(h.intent, h.writes, pid)
    case Crash(pid) => pid in h.procs
    case Reap(fd) => fd.pid !in h.procs
    case GateCall(pid, step) =>
      pid in h.procs && May(h.procs[pid], a) && OutcomeIs(h.intent, h.writes, pid, h.procs[pid].gate, step)
    case _ => a.pid in h.procs && May(h.procs[a.pid], a)
  }

  function Next(h: Host, a: Action): Host
    requires Enabled(h, a)
  {
    match a
    case Launch(pid) => h.(procs := h.procs[pid := LAUNCHED])
    case Crash(pid) => h.(procs := h.procs - {pid})
    case Reap(fd) => Host(h.intent.Unlock(fd), h.writes.Unlock(fd), h.procs)
    case GateCall(pid, step) =>
      var p := h.procs[pid];
      Host(IntentAfter(h.intent, pid, p.gate, step), WritesAfter(h.writes, pid, p.gate, step),
           h.procs[pid := Moved(p, a)])
    case _ => h.(procs := h.procs[a.pid := Moved(h.procs[a.pid], a)])
  }

  predicate Legal(h: Host, actions: seq<Action>)
    decreases |actions|
  {
    actions == [] || (Enabled(h, actions[0]) && Legal(Next(h, actions[0]), actions[1..]))
  }

  function Exec(h: Host, actions: seq<Action>): Host
    requires Legal(h, actions)
    decreases |actions|
  {
    if actions == [] then h else Exec(Next(h, actions[0]), actions[1..])
  }

  /** A manager submits a deletion only behind its own fence, one at a time. */
  predicate Orderly(p: Proc) {
    && Consistent(p.gate)
    && (p.ready || p.Deleting() ==> p.gate.fenced)
    && p.Outstanding() + (if p.ready then 1 else 0) <= 1
    && (p.stopping ==> p.running == 0 && !p.ready)
    && (p.gate.call.ClosingLease? || p.gate.call == Lifting(true) || p.gate.closed ==> p.stopping)
  }

  ghost predicate Inv(h: Host) {
    && ByRole(h.intent, h.writes)
    && forall pid :: pid in h.procs ==> Tied(h.intent, h.writes, pid, h.procs[pid].gate) && Orderly(h.procs[pid])
  }

  lemma StepOrderly(p: Proc, step: Step)
    requires Orderly(p) && Can(p.gate, step) && ManagerAllows(p, step) && Consistent(After(p.gate, step))
    ensures Orderly(ProcAfter(p, step))
  {
    hide Consistent;
  }

  lemma GateCallKeeps(h: Host, pid: nat, step: Step)
    requires Inv(h) && Enabled(h, GateCall(pid, step))
    ensures Inv(Next(h, GateCall(pid, step)))
  {
    var h' := Next(h, GateCall(pid, step));
    var p := h.procs[pid];
    hide Can, OutcomeIs, ByRole, Tied, Orderly, ManagerAllows, ProcAfter, IntentAfter, WritesAfter, Consistent;
    assert Tied(h.intent, h.writes, pid, p.gate) && Orderly(p);
    assert Consistent(p.gate) by { OrderlyConsistent(p); }
    StepTies(h.intent, h.writes, pid, p.gate, step);
    StepOrderly(p, step);
    GateOfProcAfter(p, step);
    forall other | other in h'.procs
      ensures Tied(h'.intent, h'.writes, other, h'.procs[other].gate) && Orderly(h'.procs[other])
    {
      if other != pid {
        StepTiesOthers(h.intent, h.writes, pid, p.gate, step, other, h.procs[other].gate);
      }
    }
  }

  lemma OrderlyConsistent(p: Proc)
    requires Orderly(p)
    ensures Consistent(p.gate)
  {
  }

  lemma GateOfProcAfter(p: Proc, step: Step)
    ensures ProcAfter(p, step).gate == After(p.gate, step)
  {
  }

  lemma ReapTies(h: Host, fd: Fd, pid: nat, g: Gate)
    requires ByRole(h.intent, h.writes) && fd.pid != pid && Tied(h.intent, h.writes, pid, g)
    ensures Tied(h.intent.Unlock(fd), h.writes.Unlock(fd), pid, g)
    ensures ByRole(h.intent.Unlock(fd), h.writes.Unlock(fd))
  {
  }

  lemma ReapKeeps(h: Host, fd: Fd)
    requires Inv(h) && Enabled(h, Reap(fd))
    ensures Inv(Next(h, Reap(fd)))
  {
    hide Orderly, Tied;
    var h' := Next(h, Reap(fd));
    forall pid | pid in h'.procs ensures Tied(h'.intent, h'.writes, pid, h'.procs[pid].gate) {
      ReapTies(h, fd, pid, h.procs[pid].gate);
    }
  }

  /** A step of one process that makes no lock call. */
  lemma LocalKeeps(h: Host, pid: nat, p: Proc)
    requires Inv(h) && pid in h.procs && Orderly(p) && p.gate == h.procs[pid].gate
    ensures Inv(h.(procs := h.procs[pid := p]))
  {
    hide ByRole, Tied, Orderly;
  }

  lemma UnheldTied(intent: Lock<Fd>, writes: Lock<Fd>, pid: nat)
    requires Unheld(intent, writes, pid)
    ensures Tied(intent, writes, pid, FRESH)
  {
    assert !intent.Holds(Fd(pid, Intent)) && !intent.Holds(Fd(pid, IntentProbe));
    assert !writes.Holds(Fd(pid, Write)) && !writes.Holds(Fd(pid, EvictionWrite));
  }

  lemma LaunchedOrderly()
    ensures Orderly(LAUNCHED)
  {
  }

  lemma LaunchKeeps(h: Host, pid: nat)
    requires Inv(h) && Enabled(h, Launch(pid))
    ensures Inv(Next(h, Launch(pid)))
  {
    hide ByRole, Tied, Orderly, Unheld;
    UnheldTied(h.intent, h.writes, pid);
    LaunchedOrderly();
    var h' := Next(h, Launch(pid));
    assert h' == h.(procs := h.procs[pid := LAUNCHED]) && LAUNCHED.gate == FRESH;
  }

  lemma ManagerStepKeeps(h: Host, a: Action)
    requires Inv(h) && Enabled(h, a) && !a.GateCall? && !a.Reap?
    ensures Inv(Next(h, a))
  {
    hide ByRole, Tied, Consistent;
    match a {
      case Launch(pid) => LaunchKeeps(h, pid);
      case Crash(pid) => hide Orderly;
      case Refence(pid) => LocalKeeps(h, pid, Next(h, a).procs[pid]);
      case Submit(pid) => LocalKeeps(h, pid, Next(h, a).procs[pid]);
      case NothingEvictable(pid) => LocalKeeps(h, pid, Next(h, a).procs[pid]);
      case DeletionEnds(pid) => LocalKeeps(h, pid, Next(h, a).procs[pid]);
      case Drain(pid, _) => LocalKeeps(h, pid, Next(h, a).procs[pid]);
    }
  }

  lemma NextKeeps(h: Host, a: Action)
    requires Inv(h) && Enabled(h, a)
    ensures Inv(Next(h, a))
  {
    hide Inv;
    match a {
      case GateCall(pid, step) => GateCallKeeps(h, pid, step);
      case Reap(fd) => ReapKeeps(h, fd);
      case _ => ManagerStepKeeps(h, a);
    }
  }

  lemma {:induction false} ExecKeeps(h: Host, actions: seq<Action>)
    requires Inv(h) && Legal(h, actions)
    ensures Inv(Exec(h, actions))
    decreases |actions|
  {
    hide Inv, Enabled, Next;
    if actions != [] {
      NextKeeps(h, actions[0]);
      ExecKeeps(Next(h, actions[0]), actions[1..]);
    }
  }

  /** Deletion and stores exclude each other across the whole host, and so do deletions. */
  ghost predicate Exclusion(h: Host) {
    forall pid :: pid in h.procs && h.procs[pid].Deleting() ==>
      && h.procs[pid].Outstanding() == 1
      && forall other :: other in h.procs ==>
           h.procs[other].gate.jobs == {} && (other != pid ==> !h.procs[other].Deleting())
  }

  lemma ExclusionHolds(h: Host)
    requires Inv(h)
    ensures Exclusion(h)
  {
    forall pid | pid in h.procs && h.procs[pid].Deleting()
      ensures h.procs[pid].Outstanding() == 1
      ensures forall other :: other in h.procs ==>
                h.procs[other].gate.jobs == {} && (other != pid ==> !h.procs[other].Deleting())
    {
      assert h.writes == Exclusive(Fd(pid, EvictionWrite));
      forall other | other in h.procs
        ensures h.procs[other].gate.jobs == {} && (other != pid ==> !h.procs[other].Deleting())
      {
        assert Tied(h.intent, h.writes, other, h.procs[other].gate) && Orderly(h.procs[other]);
      }
    }
  }

  /** In every reachable state of every interleaving, crashes included: while a deletion is
      outstanding no process has an admitted store, and at most one deletion is outstanding. */
  lemma RunsExclude(actions: seq<Action>)
    requires Legal(BOOTED, actions)
    ensures Exclusion(Exec(BOOTED, actions))
  {
    ExecKeeps(BOOTED, actions);
    ExclusionHolds(Exec(BOOTED, actions));
  }

  /** The admitted stores of the host. */
  function Admitted(h: Host): set<(nat, int)> {
    set pid, job | pid in h.procs && job in h.procs[pid].gate.jobs :: (pid, job)
  }

  /** A process owns eviction from the first state to the last. */
  predicate OwnsThroughout(h: Host, owner: nat, actions: seq<Action>)
    requires Legal(h, actions)
    decreases |actions|
  {
    && owner in h.procs && h.procs[owner].gate.owns
    && (actions != [] ==> OwnsThroughout(Next(h, actions[0]), owner, actions[1..]))
  }

  lemma OwnedCallPinsNone(h: Host, owner: nat, pid: nat, step: Step)
    requires Inv(h) && Enabled(h, GateCall(pid, step)) && owner in h.procs && h.procs[owner].gate.owns
    ensures After(h.procs[pid].gate, step).jobs <= h.procs[pid].gate.jobs
  {
    hide ByRole, Orderly, ManagerAllows, Consistent;
    assert Tied(h.intent, h.writes, owner, h.procs[owner].gate);
    assert Tied(h.intent, h.writes, pid, h.procs[pid].gate);
  }

  ghost predicate PinsNone(h: Host, h': Host) {
    forall pid :: pid in h'.procs && h'.procs[pid].gate.jobs != {} ==>
                    pid in h.procs && h'.procs[pid].gate.jobs <= h.procs[pid].gate.jobs
  }

  lemma OwnedStepPinsNone(h: Host, owner: nat, a: Action)
    requires Inv(h) && Enabled(h, a) && owner in h.procs && h.procs[owner].gate.owns
    ensures PinsNone(h, Next(h, a))
  {
    hide Inv, After, ProcAfter, IntentAfter, WritesAfter, OutcomeIs, ManagerAllows, Can;
    if a.GateCall? {
      OwnedCallPinsNone(h, owner, a.pid, a.step);
      GateOfProcAfter(h.procs[a.pid], a.step);
      assert Next(h, a).procs == h.procs[a.pid := ProcAfter(h.procs[a.pid], a.step)];
    } else if a.Launch? {
      assert Next(h, a).procs == h.procs[a.pid := LAUNCHED];
    } else {
      assert forall pid :: pid in Next(h, a).procs ==>
                             pid in h.procs && Next(h, a).procs[pid].gate == h.procs[pid].gate;
    }
  }

  /** No store is admitted in a step taken while some process owns eviction. */
  lemma OwnedStepAdmitsNone(h: Host, owner: nat, a: Action)
    requires Inv(h) && Enabled(h, a) && owner in h.procs && h.procs[owner].gate.owns
    ensures Admitted(Next(h, a)) <= Admitted(h)
  {
    hide Inv, Enabled, Next;
    OwnedStepPinsNone(h, owner, a);
  }

  lemma SubsetSmaller<T>(a: set<T>, b: set<T>)
    requires a <= b
    ensures |a| <= |b|
  {
    assert b == a + (b - a);
  }

  /** From the moment a process owns eviction until it gives it up, the admitted stores of the
      host only drain. */
  lemma {:induction false} OwnedRunDrains(h: Host, owner: nat, actions: seq<Action>)
    requires Inv(h) && Legal(h, actions) && OwnsThroughout(h, owner, actions)
    ensures Admitted(Exec(h, actions)) <= Admitted(h)
    ensures |Admitted(Exec(h, actions))| <= |Admitted(h)|
    decreases |actions|
  {
    hide Inv, Enabled, Next, Admitted;
    if actions != [] {
      OwnedStepAdmitsNone(h, owner, actions[0]);
      NextKeeps(h, actions[0]);
      OwnedRunDrains(Next(h, actions[0]), owner, actions[1..]);
      SubsetSmaller(Admitted(Exec(h, actions)), Admitted(h));
    }
  }

  lemma RunsDrain(before: seq<Action>, owner: nat, during: seq<Action>)
    requires Legal(BOOTED, before) && Legal(Exec(BOOTED, before), during)
    requires OwnsThroughout(Exec(BOOTED, before), owner, during)
    ensures |Admitted(Exec(Exec(BOOTED, before), during))| <= |Admitted(Exec(BOOTED, before))|
  {
    ExecKeeps(BOOTED, before);
    OwnedRunDrains(Exec(BOOTED, before), owner, during);
  }

  // ----- one process by itself

  /** A step of this process's manager; its launch, its crash and the reaping are not. */
  predicate IsBy(a: Action, pid: nat) {
    match a
    case Launch(_) => false
    case Crash(_) => false
    case Reap(_) => false
    case _ => a.pid == pid
  }

  /** The process after these steps of its manager since its launch, if each was one it may take. */
  function Managed(pid: nat, steps: seq<Action>): Option<Proc> {
    if steps == [] then Some(LAUNCHED)
    else
      var last := steps[|steps| - 1];
      match Managed(pid, steps[..|steps| - 1])
      case None => None
      case Some(p) => if IsBy(last, pid) && May(p, last) then Some(Moved(p, last)) else None
  }

  lemma ManagedOn(pid: nat, steps: seq<Action>, p: Proc, a: Action)
    requires Managed(pid, steps) == Some(p) && IsBy(a, pid) && May(p, a)
    ensures Managed(pid, steps + [a]) == Some(Moved(p, a))
  {
    hide May, Moved;
    assert (steps + [a])[..|steps|] == steps;
  }

  /** The lock calls with which a gate admits and ends stores, and asks for the owner. */
  predicate ForStores(step: Step) {
    step.Probe? || step.TakeLease? || step.Unprobe? || step.Query? || step.Release?
  }

  function Calls(pid: nat, steps: seq<Step>): seq<Action> {
    seq(|steps|, i requires 0 <= i < |steps| => GateCall(pid, steps[i]))
  }

  /** A manager in service may make those calls as its gate can. */
  lemma {:induction false} StoreCalls(pid: nat, steps: seq<Action>, p: Proc, calls: seq<Step>)
    requires Managed(pid, steps) == Some(p) && !p.stopping
    requires Plays(p.gate, calls) && forall i :: 0 <= i < |calls| ==> ForStores(calls[i])
    ensures Managed(pid, steps + Calls(pid, calls)) == Some(p.(gate := Replay(p.gate, calls)))
    decreases |calls|
  {
    hide Can, After;
    if calls == [] {
      assert steps + Calls(pid, calls) == steps;
    } else {
      var a := GateCall(pid, calls[0]);
      ManagedOn(pid, steps, p, a);
      assert Calls(pid, calls) == [a] + Calls(pid, calls[1..]);
      assert steps + Calls(pid, calls) == steps + [a] + Calls(pid, calls[1..]);
      StoreCalls(pid, steps + [a], Moved(p, a), calls[1..]);
    }
  }

  /** A manager in service with its gate at rest. */
  predicate AtRest(p: Proc) {
    !p.ready && !p.stopping && !p.gate.closed && p.gate.call.Idle?
  }

  /** The owner with nothing outstanding fences writes, unless they are fenced, and behind the fence submits a
      deletion or finds none to submit. */
  lemma Fences(pid: nat, steps: seq<Action>, p: Proc, fenced: bool, submits: bool) returns (now: seq<Action>)
    requires Managed(pid, steps) == Some(p) && AtRest(p) && p.active && p.gate.owns && p.Outstanding() == 0
    requires p.gate.fenced || submits ==> fenced
    ensures steps <= now
    ensures Managed(pid, now) == Some(p.(gate := p.gate.(fenced := fenced), running := if submits then 1 else 0))
  {
    hide Managed;
    var a := if p.gate.fenced then Refence(pid) else GateCall(pid, Fence(fenced));
    var q := Moved(p, a);
    ManagedOn(pid, steps, p, a);
    now := steps + [a];
    if fenced {
      ManagedOn(pid, now, q, if submits then Submit(pid) else NothingEvictable(pid));
      now := now + [if submits then Submit(pid) else NothingEvictable(pid)];
    }
  }

  /** The owner with nothing outstanding gives up its ownership. */
  lemma GivesUp(pid: nat, steps: seq<Action>, p: Proc) returns (now: seq<Action>)
    requires Managed(pid, steps) == Some(p) && AtRest(p) && p.active && p.Outstanding() == 0
    ensures steps <= now
    ensures Managed(pid, now) == Some(p.(gate := p.gate.(fenced := false, owns := false), active := false))
  {
    hide Managed;
    var first, second := GateCall(pid, LiftFence(false)), GateCall(pid, LiftIntent);
    ManagedOn(pid, steps, p, first);
    ManagedOn(pid, steps + [first], Moved(p, first), second);
    now := steps + [first] + [second];
  }

  /** A deletion ends and is accounted for. */
  lemma Drains(pid: nat, steps: seq<Action>, p: Proc) returns (now: seq<Action>)
    requires Managed(pid, steps) == Some(p) && p.running == 1 && p.undrained == 0
    ensures steps <= now && Managed(pid, now) == Some(p.(running := 0))
  {
    hide Managed;
    ManagedOn(pid, steps, p, DeletionEnds(pid));
    ManagedOn(pid, steps + [DeletionEnds(pid)], Moved(p, DeletionEnds(pid)), Drain(pid, 1));
    now := steps + [DeletionEnds(pid)] + [Drain(pid, 1)];
  }

  /** A process that does not own eviction asks to. */
  lemma Takes(pid: nat, steps: seq<Action>, p: Proc, granted: bool) returns (now: seq<Action>)
    requires Managed(pid, steps) == Some(p) && AtRest(p) && !p.active && !p.gate.owns
    ensures steps <= now
    ensures Managed(pid, now) == Some(p.(gate := p.gate.(owns := granted), active := granted))
  {
    hide Managed;
    ManagedOn(pid, steps, p, GateCall(pid, TakeIntent(granted)));
    now := steps + [GateCall(pid, TakeIntent(granted))];
  }

  /** The steps of a process's manager in a run, since its last launch; `steps` came before. */
  function Own(pid: nat, steps: seq<Action>, actions: seq<Action>): seq<Action>
    decreases |actions|
  {
    if actions == [] then steps
    else if actions[0] == Launch(pid) then Own(pid, [], actions[1..])
    else if IsBy(actions[0], pid) then Own(pid, steps + [actions[0]], actions[1..])
    else Own(pid, steps, actions[1..])
  }

  ghost predicate Follows(h: Host, pid: nat, steps: seq<Action>) {
    pid in h.procs ==> Managed(pid, steps) == Some(h.procs[pid])
  }

  lemma NextFollows(h: Host, pid: nat, steps: seq<Action>, a: Action)
    requires Follows(h, pid, steps) && Enabled(h, a)
    ensures a == Launch(pid) ==> Follows(Next(h, a), pid, [])
    ensures IsBy(a, pid) ==> Follows(Next(h, a), pid, steps + [a])
    ensures a != Launch(pid) && !IsBy(a, pid) ==> Follows(Next(h, a), pid, steps)
  {
    hide May, Moved, OutcomeIs, IntentAfter, WritesAfter, Unheld, Managed;
    if IsBy(a, pid) {
      ManagedOn(pid, steps, h.procs[pid], a);
      assert Next(h, a).procs[pid] == Moved(h.procs[pid], a);
    } else if a == Launch(pid) {
      assert Managed(pid, []) == Some(LAUNCHED) by {
        NothingManaged(pid);
      }
    }
  }

  lemma NothingManaged(pid: nat)
    ensures Managed(pid, []) == Some(LAUNCHED)
  {
  }

  lemma {:induction false} RunFollows(h: Host, pid: nat, steps: seq<Action>, actions: seq<Action>)
    requires Follows(h, pid, steps) && Legal(h, actions)
    ensures Follows(Exec(h, actions), pid, Own(pid, steps, actions))
    decreases |actions|
  {
    hide Enabled, Next, Follows, IsBy;
    if actions != [] {
      var a := actions[0];
      NextFollows(h, pid, steps, a);
      var next := if a == Launch(pid) then [] else if IsBy(a, pid) then steps + [a] else steps;
      RunFollows(Next(h, a), pid, next, actions[1..]);
    }
  }

  /** In every interleaving each live process is where its own manager's steps alone have taken it, and none of
      them was one the manager may not take. */
  lemma ProcessesFollowManagers(actions: seq<Action>, pid: nat)
    requires Legal(BOOTED, actions) && pid in Exec(BOOTED, actions).procs
    ensures Managed(pid, Own(pid, [], actions)) == Some(Exec(BOOTED, actions).procs[pid])
  {
    RunFollows(BOOTED, pid, [], actions);
  }

  predicate Reaped(h: Host) {
    && (h.intent.Exclusive? ==> h.intent.holder.pid in h.procs)
    && (h.writes.Exclusive? ==> h.writes.holder.pid in h.procs)
  }

  /** The three lock calls that admit a store, one after the other. */
  predicate Admits(h: Host, pid: nat, job: int) {
    var probe, take, unprobe := GateCall(pid, Probe(job, true)), GateCall(pid, TakeLease(true)), GateCall(pid, Unprobe);
    && Enabled(h, probe)
    && Enabled(Next(h, probe), take)
    && Enabled(Next(Next(h, probe), take), unprobe)
    && (pid, job) in Admitted(Next(Next(Next(h, probe), take), unprobe))
  }

  /** A crashed owner cannot leave the cache read-only: once its locks are reaped and no live
      process owns eviction, every idle gate admits its next store, whatever ran before. */
  lemma StoresResume(actions: seq<Action>, pid: nat, job: int)
    requires Legal(BOOTED, actions)
    requires var h := Exec(BOOTED, actions);
             && Reaped(h) && (forall other :: other in h.procs ==> !h.procs[other].gate.owns)
             && pid in h.procs && h.procs[pid].gate.call.Idle? && !h.procs[pid].gate.closed && !h.procs[pid].stopping
    ensures Admits(Exec(BOOTED, actions), pid, job)
  {
    hide Admits;
    ExecKeeps(BOOTED, actions);
    var h := Exec(BOOTED, actions);
    FreeLocks(h);
    OrderlyConsistent(h.procs[pid]);
    PinPlays(h, pid, job);
  }

  lemma FreeLocks(h: Host)
    requires Inv(h) && Reaped(h) && forall other :: other in h.procs ==> !h.procs[other].gate.owns
    ensures h.intent.Shared? && h.writes.Shared?
  {
    if h.intent.Exclusive? {
      assert false;
    }
    if h.writes.Exclusive? {
      assert false;
    }
  }

  lemma PinPlays(h: Host, pid: nat, job: int)
    requires h.intent.Shared? && h.writes.Shared?
    requires pid in h.procs && h.procs[pid].gate.call.Idle? && !h.procs[pid].gate.closed
    requires !h.procs[pid].stopping && !h.procs[pid].gate.owns
    ensures Admits(h, pid, job)
  {
    var probe, take, unprobe := GateCall(pid, Probe(job, true)), GateCall(pid, TakeLease(true)), GateCall(pid, Unprobe);
    assert Enabled(h, probe);
    var h1 := Next(h, probe);
    assert h1.procs[pid].gate.call == Probed(job) && h1.writes == h.writes;
    assert Enabled(h1, take);
    var h2 := Next(h1, take);
    assert job in h2.procs[pid].gate.jobs && h2.procs[pid].gate.call.Unprobing?;
    assert Enabled(h2, unprobe);
    assert job in Next(h2, unprobe).procs[pid].gate.jobs;
  }
}
