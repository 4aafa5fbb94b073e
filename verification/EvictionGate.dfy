/** The two-lock gate between stores and eviction of the processes sharing one cache.

    `Gate` is one process's gate as a value, advanced one lock call at a time; the class
    `SharedEvictionGate` performs the same calls on the locks of the host, between any
    two of which other processes may move.
 */
module EvictionGate {
  import opened Flock

  /** The four descriptors a process opens on the two lock files. */
  datatype Role = Intent | IntentProbe | Write | EvictionWrite

  datatype Fd = Fd(pid: nat, role: Role)

  /** How far the gate call that holds the process's mutex has come. */
  datatype Call = Idle | Probed(job: int) | Unprobing | Lifting(closing: bool) | ClosingLease

  datatype Gate = Gate(
    owns: bool,
    fenced: bool,
    jobs: set<int>,
    leaseHeld: bool,
    closed: bool,
    call: Call)

  const FRESH := Gate(false, false, {}, false, false, Idle)

  /** One lock call of a gate method, with its outcome. */
  datatype Step =
    | TakeIntent(granted: bool)
    | Fence(granted: bool)
    | Probe(job: int, granted: bool)
    | TakeLease(granted: bool)
    | Unprobe
    | Query(granted: bool)
    | Release(job: int)
    | LiftFence(closing: bool)
    | LiftIntent
    | CloseLease

  predicate Can(g: Gate, step: Step) {
    && !g.closed
    && match step
       case TakeIntent(_) => g.call.Idle? && !g.owns
       case Fence(_) => g.call.Idle? && g.owns && !g.fenced
       case Probe(_, _) => g.call.Idle? && !g.owns
       case TakeLease(granted) => g.call.Probed? && (g.leaseHeld ==> granted)
       case Unprobe => g.call.Unprobing?
       case Query(_) => g.call.Idle? && !g.owns
       case Release(_) => g.call.Idle?
       case LiftFence(_) => g.call.Idle?
       case LiftIntent => g.call.Lifting?
       case CloseLease => g.call.ClosingLease?
  }

  function After(g: Gate, step: Step): Gate {
    match step
    case TakeIntent(granted) => g.(owns := g.owns || granted)
    case Fence(granted) => g.(fenced := g.fenced || granted)
    case Probe(job, granted) => if granted then g.(call := Probed(job)) else g
    case TakeLease(granted) =>
      if granted && g.call.Probed? then
        g.(jobs := g.jobs + {g.call.job}, leaseHeld := true, call := Unprobing)
      else g.(call := Unprobing)
    case Unprobe => g.(call := Idle)
    case Query(granted) => if granted then g.(call := Unprobing) else g
    case Release(job) =>
      var left := g.jobs - {job};
      g.(jobs := left, leaseHeld := g.leaseHeld && left != {})
    case LiftFence(closing) => g.(fenced := false, call := Lifting(closing))
    case LiftIntent => g.(owns := false, call := if g.call == Lifting(true) then ClosingLease else Idle)
    case CloseLease => g.(jobs := {}, leaseHeld := false, closed := true, call := Idle)
  }

  function Replay(g: Gate, steps: seq<Step>): Gate
    decreases |steps|
  {
    if steps == [] then g else Replay(After(g, steps[0]), steps[1..])
  }

  predicate Plays(g: Gate, steps: seq<Step>)
    decreases |steps|
  {
    steps == [] || (Can(g, steps[0]) && Plays(After(g, steps[0]), steps[1..]))
  }

  lemma PlayFirst(g: Gate, first: Step, rest: seq<Step>)
    ensures Replay(g, [first] + rest) == Replay(After(g, first), rest)
    ensures Plays(g, [first] + rest) <==> Can(g, first) && Plays(After(g, first), rest)
  {
    assert ([first] + rest)[1..] == rest;
  }

  lemma PlayTwo(g: Gate, a: Step, b: Step)
    ensures Replay(g, [a, b]) == After(After(g, a), b)
    ensures Plays(g, [a, b]) <==> Can(g, a) && Can(After(g, a), b)
  {
    hide Can, After;
    PlayFirst(g, a, [b]);
    PlayFirst(After(g, a), b, []);
    assert [a] + [b] == [a, b] && [b] + [] == [b];
  }

  lemma PlayThree(g: Gate, a: Step, b: Step, c: Step)
    ensures Replay(g, [a, b, c]) == After(After(After(g, a), b), c)
    ensures Plays(g, [a, b, c]) <==> Can(g, a) && Can(After(g, a), b) && Can(After(After(g, a), b), c)
  {
    hide Can, After;
    PlayFirst(g, a, [b, c]);
    PlayTwo(After(g, a), b, c);
    assert [a] + [b, c] == [a, b, c];
  }

  /** The effect of a step on the intent lock. */
  function IntentAfter(intent: Lock<Fd>, pid: nat, g: Gate, step: Step): Lock<Fd> {
    match step
    case TakeIntent(_) => intent.LockExclusive(Fd(pid, Intent))
    case Probe(_, _) => intent.LockShared(Fd(pid, IntentProbe))
    case Query(_) => intent.LockShared(Fd(pid, IntentProbe))
    case Unprobe => intent.Unlock(Fd(pid, IntentProbe))
    case LiftIntent => if g.owns then intent.Unlock(Fd(pid, Intent)) else intent
    case _ => intent
  }

  /** The effect of a step on the write lock. */
  function WritesAfter(writes: Lock<Fd>, pid: nat, g: Gate, step: Step): Lock<Fd> {
    match step
    case Fence(_) => writes.LockExclusive(Fd(pid, EvictionWrite))
    case TakeLease(_) => if g.leaseHeld then writes else writes.LockShared(Fd(pid, Write))
    case Release(_) => if g.leaseHeld && !After(g, step).leaseHeld then writes.Unlock(Fd(pid, Write)) else writes
    case LiftFence(_) => if g.fenced then writes.Unlock(Fd(pid, EvictionWrite)) else writes
    case CloseLease => if g.leaseHeld then writes.Unlock(Fd(pid, Write)) else writes
    case _ => writes
  }

  /** The outcome a step records is the one the locks give. */
  predicate OutcomeIs(intent: Lock<Fd>, writes: Lock<Fd>, pid: nat, g: Gate, step: Step) {
    match step
    case TakeIntent(granted) => granted == intent.GrantsExclusive(Fd(pid, Intent))
    case Fence(granted) => granted == writes.GrantsExclusive(Fd(pid, EvictionWrite))
    case Probe(_, granted) => granted == intent.GrantsShared(Fd(pid, IntentProbe))
    case Query(granted) => granted == intent.GrantsShared(Fd(pid, IntentProbe))
    case TakeLease(granted) => granted == (g.leaseHeld || writes.GrantsShared(Fd(pid, Write)))
    case _ => true
  }

  /** The locks a process's descriptors hold are exactly those its gate believes it holds. */
  predicate Tied(intent: Lock<Fd>, writes: Lock<Fd>, pid: nat, g: Gate) {
    && (g.owns <==> intent == Exclusive(Fd(pid, Intent)))
    && (g.call.Probed? || g.call.Unprobing? <==> intent.Holds(Fd(pid, IntentProbe)))
    && (g.fenced <==> writes == Exclusive(Fd(pid, EvictionWrite)))
    && (g.leaseHeld <==> writes.Holds(Fd(pid, Write)))
  }

  predicate Unheld(intent: Lock<Fd>, writes: Lock<Fd>, pid: nat) {
    forall role: Role :: !intent.Holds(Fd(pid, role)) && !writes.Holds(Fd(pid, role))
  }

  /** Owners and evictors hold their locks alone, probes and store leases share theirs. */
  predicate ByRole(intent: Lock<Fd>, writes: Lock<Fd>) {
    && (intent.Exclusive? ==> intent.holder.role.Intent?)
    && (intent.Shared? ==> forall fd :: fd in intent.holders ==> fd.role.IntentProbe?)
    && (writes.Exclusive? ==> writes.holder.role.EvictionWrite?)
    && (writes.Shared? ==> forall fd :: fd in writes.holders ==> fd.role.Write?)
  }

  predicate Consistent(g: Gate) {
    && (g.jobs != {} <==> g.leaseHeld)
    && (g.fenced ==> g.owns && !g.call.Lifting? && !g.call.ClosingLease?)
    && (g.call.ClosingLease? ==> !g.owns)
    && (g.closed ==> g == FRESH.(closed := true))
  }

  /** A lock call keeps the gate's belief and the locks tied, for this process and every other. */
  lemma StepTies(intent: Lock<Fd>, writes: Lock<Fd>, pid: nat, g: Gate, step: Step)
    requires ByRole(intent, writes) && Tied(intent, writes, pid, g) && Consistent(g)
    requires Can(g, step) && OutcomeIs(intent, writes, pid, g, step)
    ensures var intent', writes' := IntentAfter(intent, pid, g, step), WritesAfter(writes, pid, g, step);
            && ByRole(intent', writes') && Tied(intent', writes', pid, After(g, step))
            && Consistent(After(g, step))
  {
  }

  lemma StepTiesOthers(intent: Lock<Fd>, writes: Lock<Fd>, pid: nat, g: Gate, step: Step, other: nat, og: Gate)
    requires ByRole(intent, writes) && Tied(intent, writes, pid, g) && Consistent(g)
    requires Can(g, step) && OutcomeIs(intent, writes, pid, g, step)
    requires other != pid && Tied(intent, writes, other, og)
    ensures Tied(IntentAfter(intent, pid, g, step), WritesAfter(writes, pid, g, step), other, og)
  {
  }

  /** Other processes may take and drop locks, but never this process's. */
  predicate OthersMove(was: Lock<Fd>, now: Lock<Fd>, pid: nat) {
    && (forall role: Role :: now.Holds(Fd(pid, role)) == was.Holds(Fd(pid, role)))
    && (was.Exclusive? && was.holder.pid == pid ==> now == was)
  }

  /** The locks, and what the other processes will make of them: one pair of locks for each time they run. */
  datatype World = World(intent: Lock<Fd>, writes: Lock<Fd>, future: seq<(Lock<Fd>, Lock<Fd>)>) {
    /** After the other processes have run. */
    function Later(pid: nat): World {
      if future == [] then this
      else
        var (nextIntent, nextWrites) := future[0];
        if ByRole(nextIntent, nextWrites) && OthersMove(intent, nextIntent, pid) && OthersMove(writes, nextWrites, pid)
        then World(nextIntent, nextWrites, future[1..])
        else this.(future := future[1..])
    }

    function Called(pid: nat, g: Gate, step: Step): World {
      World(IntentAfter(intent, pid, g, step), WritesAfter(writes, pid, g, step), future)
    }
  }

  /** A gate makes these lock calls in a world in which the others run before each of them; every outcome is
      the one the locks give at that moment. */
  predicate PlaysIn(w: World, pid: nat, g: Gate, steps: seq<Step>, after: World)
    decreases |steps|
  {
    if steps == [] then after == w
    else
      var now := w.Later(pid);
      && Can(g, steps[0]) && OutcomeIs(now.intent, now.writes, pid, g, steps[0])
      && PlaysIn(now.Called(pid, g, steps[0]), pid, After(g, steps[0]), steps[1..], after)
  }

  lemma {:induction false} PlaysInPlays(w: World, pid: nat, g: Gate, steps: seq<Step>, after: World)
    requires PlaysIn(w, pid, g, steps, after)
    ensures Plays(g, steps)
    decreases |steps|
  {
    hide Can, After, OutcomeIs;
    if steps != [] {
      var now := w.Later(pid);
      PlaysInPlays(now.Called(pid, g, steps[0]), pid, After(g, steps[0]), steps[1..], after);
    }
  }

  lemma PlaysInFirst(w: World, pid: nat, g: Gate, first: Step, rest: seq<Step>, after: World)
    requires var now := w.Later(pid);
             && Can(g, first) && OutcomeIs(now.intent, now.writes, pid, g, first)
             && PlaysIn(now.Called(pid, g, first), pid, After(g, first), rest, after)
    ensures PlaysIn(w, pid, g, [first] + rest, after)
  {
    hide Can, After, OutcomeIs, World.Later, World.Called;
    assert ([first] + rest)[1..] == rest;
  }

  /** The two lock files, and what the other processes will do to them. */
  class HostLocks {
    var intent: Lock<Fd>
    var writes: Lock<Fd>
    var future: seq<(Lock<Fd>, Lock<Fd>)>

    function View(): World
      reads this
    {
      World(intent, writes, future)
    }

    /** Other processes run between two lock calls of process `pid`. */
    method Interleave(pid: nat, ghost g: Gate)
      requires ByRole(intent, writes) && Tied(intent, writes, pid, g)
      modifies this
      ensures View() == old(View()).Later(pid)
      ensures ByRole(intent, writes) && Tied(intent, writes, pid, g)
    {
      if future != [] {
        var (nextIntent, nextWrites) := future[0];
        future := future[1..];
        if ByRole(nextIntent, nextWrites) && OthersMove(intent, nextIntent, pid)
           && OthersMove(writes, nextWrites, pid) {
          intent, writes := nextIntent, nextWrites;
        }
      }
    }

    method TryIntent(fd: Fd, exclusive: bool) returns (granted: bool)
      modifies this`intent
      ensures granted == old(if exclusive then intent.GrantsExclusive(fd) else intent.GrantsShared(fd))
      ensures intent == old(if exclusive then intent.LockExclusive(fd) else intent.LockShared(fd))
    {
      granted := if exclusive then intent.GrantsExclusive(fd) else intent.GrantsShared(fd);
      intent := if exclusive then intent.LockExclusive(fd) else intent.LockShared(fd);
    }

    method TryWrites(fd: Fd, exclusive: bool) returns (granted: bool)
      modifies this`writes
      ensures granted == old(if exclusive then writes.GrantsExclusive(fd) else writes.GrantsShared(fd))
      ensures writes == old(if exclusive then writes.LockExclusive(fd) else writes.LockShared(fd))
    {
      granted := if exclusive then writes.GrantsExclusive(fd) else writes.GrantsShared(fd);
      writes := if exclusive then writes.LockExclusive(fd) else writes.LockShared(fd);
    }
  }

  class SharedEvictionGate {
    const pid: nat
    const locks: HostLocks
    var ownsEviction: bool
    var writesFenced: bool
    var storeJobs: set<int>
    var storeLeaseHeld: bool
    var closed: bool

    ghost function View(): Gate
      reads this
    {
      Gate(ownsEviction, writesFenced, storeJobs, storeLeaseHeld, closed, Idle)
    }

    /** The locks are tied to this gate, at this point of one of its calls. */
    ghost predicate Standing(g: Gate)
      reads locks
    {
      ByRole(locks.intent, locks.writes) && Tied(locks.intent, locks.writes, pid, g) && Consistent(g)
    }

    ghost predicate Valid()
      reads this, locks
    {
      Standing(View())
    }

    constructor (pid: nat, locks: HostLocks)
      requires ByRole(locks.intent, locks.writes)
      requires Unheld(locks.intent, locks.writes, pid)
      ensures Valid() && View() == FRESH && this.locks == locks && this.pid == pid
    {
      this.pid, this.locks := pid, locks;
      ownsEviction, writesFenced, storeJobs, storeLeaseHeld, closed := false, false, {}, false, false;
    }

    /** In this world the gate owns eviction once it has asked to. */
    ghost predicate Owns(w: World)
      reads this
    {
      ownsEviction || w.Later(pid).intent.GrantsExclusive(Fd(pid, Intent))
    }

    ghost function Asked(w: World): World
      reads this
    {
      if ownsEviction then w else w.Later(pid).Called(pid, View(), TakeIntent(Owns(w)))
    }

    /** In this world the owner has writes fenced once it has asked to. */
    ghost predicate Fences(w: World)
      reads this`writesFenced
    {
      writesFenced || w.Later(pid).writes.GrantsExclusive(Fd(pid, EvictionWrite))
    }

    /** Become the sole eviction owner; refused while any process owns or is admitting a store. */
    method TryBeginEviction() returns (ok: bool, ghost steps: seq<Step>)
      requires Valid() && !closed
      modifies this`ownsEviction, locks
      ensures Valid() && ok == ownsEviction
      ensures Plays(old(View()), steps) && View() == Replay(old(View()), steps)
      ensures PlaysIn(old(locks.View()), pid, old(View()), steps, locks.View())
      ensures steps == if old(ownsEviction) then [] else [TakeIntent(ok)]
      ensures ok <==> old(Owns(locks.View()))
      ensures locks.View() == old(Asked(locks.View()))
    {
      if ownsEviction {
        return true, [];
      }
      locks.Interleave(pid, View());
      ok := locks.TryIntent(Fd(pid, Intent), true);
      steps := [TakeIntent(ok)];
      ownsEviction := ok;
    }

    /** Fence disk writes; refused while any process still holds a store lease. */
    method TryFenceWrites() returns (ok: bool, ghost steps: seq<Step>)
      requires Valid() && !closed
      modifies this`writesFenced, locks
      ensures Valid() && ok == writesFenced && (ok ==> ownsEviction) && (old(writesFenced) ==> ok)
      ensures Plays(old(View()), steps) && View() == Replay(old(View()), steps)
      ensures PlaysIn(old(locks.View()), pid, old(View()), steps, locks.View())
      ensures steps == if !ownsEviction || old(writesFenced) then [] else [Fence(ok)]
      ensures ok <==> ownsEviction && old(Fences(locks.View()))
    {
      if !ownsEviction {
        return false, [];
      }
      if writesFenced {
        return true, [];
      }
      locks.Interleave(pid, View());
      ok := locks.TryWrites(Fd(pid, EvictionWrite), true);
      steps := [Fence(ok)];
      writesFenced := ok;
    }

    /** The probe of the owner that admitting a store begins with is granted, in this world. */
    ghost predicate Probes(w: World)
      reads this
    {
      !closed && !ownsEviction && w.Later(pid).intent.GrantsShared(Fd(pid, IntentProbe))
    }

    /** So is the write lease that follows, the others having run again. */
    ghost predicate Admits(w: World, job: int)
      reads this
    {
      && Probes(w)
      && (storeLeaseHeld
          || w.Later(pid).Called(pid, View(), Probe(job, true)).Later(pid).writes.GrantsShared(Fd(pid, Write)))
    }

    /** When nobody else moves, all of that is decided by the locks as they are. */
    lemma AtRest(w: World, job: int)
      requires w.future == []
      ensures Owns(w) <==> ownsEviction || w.intent.GrantsExclusive(Fd(pid, Intent))
      ensures Fences(w) <==> writesFenced || w.writes.GrantsExclusive(Fd(pid, EvictionWrite))
      ensures Admits(w, job) <==>
                && !closed && !ownsEviction && w.intent.GrantsShared(Fd(pid, IntentProbe))
                && (storeLeaseHeld || w.writes.GrantsShared(Fd(pid, Write)))
    {
    }

    method ProbeIntent(job: int) returns (granted: bool)
      requires Valid() && !closed && !ownsEviction
      modifies locks
      ensures granted == old(locks.View()).Later(pid).intent.GrantsShared(Fd(pid, IntentProbe))
      ensures locks.View() == old(locks.View()).Later(pid).Called(pid, View(), Probe(job, granted))
      ensures Standing(After(View(), Probe(job, granted)))
    {
      hide ByRole, Tied, Consistent;
      locks.Interleave(pid, View());
      ghost var probe := Probe(job, locks.intent.GrantsShared(Fd(pid, IntentProbe)));
      StepTies(locks.intent, locks.writes, pid, View(), probe);
      granted := locks.TryIntent(Fd(pid, IntentProbe), false);
    }

    method LeaseBehindProbe(job: int, ghost g: Gate) returns (ok: bool)
      requires g == View().(call := Probed(job)) && !closed && Standing(g)
      modifies this`storeJobs, this`storeLeaseHeld, locks
      ensures ok == (old(storeLeaseHeld) || old(locks.View()).Later(pid).writes.GrantsShared(Fd(pid, Write)))
      ensures locks.View() == old(locks.View()).Later(pid).Called(pid, g, TakeLease(ok))
      ensures storeJobs == (old(storeJobs) + if ok then {job} else {}) && storeLeaseHeld == ok
      ensures Standing(After(g, TakeLease(ok)))
    {
      hide ByRole, Tied, Consistent;
      locks.Interleave(pid, g);
      ghost var take := TakeLease(storeLeaseHeld || locks.writes.GrantsShared(Fd(pid, Write)));
      StepTies(locks.intent, locks.writes, pid, g, take);
      ok := true;
      if !storeLeaseHeld {
        ok := locks.TryWrites(Fd(pid, Write), false);
        storeLeaseHeld := ok;
      }
      if ok {
        storeJobs := storeJobs + {job};
      }
    }

    method DropProbe(ghost g: Gate)
      requires g == View().(call := Unprobing) && !closed && Standing(g)
      modifies locks
      ensures Valid() && locks.View() == old(locks.View()).Later(pid).Called(pid, g, Unprobe)
    {
      hide ByRole, Tied, Consistent;
      locks.Interleave(pid, g);
      StepTies(locks.intent, locks.writes, pid, g, Unprobe);
      locks.intent := locks.intent.Unlock(Fd(pid, IntentProbe));
    }

    /** Admit a store; the intent probe is held until the write lease is. */
    method TryPinStore(job: int) returns (ok: bool, ghost steps: seq<Step>)
      requires Valid()
      modifies this`storeJobs, this`storeLeaseHeld, locks
      ensures Valid()
      ensures storeJobs == old(storeJobs) + (if ok then {job} else {}) && (ok ==> storeLeaseHeld && !ownsEviction)
      ensures Plays(old(View()), steps) && View() == Replay(old(View()), steps)
      ensures PlaysIn(old(locks.View()), pid, old(View()), steps, locks.View())
      ensures steps == if closed || ownsEviction then []
                       else if !old(Probes(locks.View())) then [Probe(job, false)]
                       else [Probe(job, true), TakeLease(ok), Unprobe]
      ensures ok <==> old(Admits(locks.View(), job))
    {
      hide ByRole, Tied, Consistent;
      if closed || ownsEviction {
        return false, [];
      }
      var probed := ProbeIntent(job);
      ok := probed;
      if !probed {
        PlaysInFirst(old(locks.View()), pid, View(), Probe(job, false), [], locks.View());
        return false, [Probe(job, false)] + [];
      }
      ghost var g1, w1 := After(View(), Probe(job, true)), locks.View();
      ok := LeaseBehindProbe(job, g1);
      ghost var g2, w2 := After(g1, TakeLease(ok)), locks.View();
      DropProbe(g2);
      PlaysInFirst(w2, pid, g2, Unprobe, [], locks.View());
      PlaysInFirst(w1, pid, g1, TakeLease(ok), [Unprobe] + [], locks.View());
      PlaysInFirst(old(locks.View()), pid, old(View()), Probe(job, true), [TakeLease(ok)] + ([Unprobe] + []),
                   locks.View());
      steps := [Probe(job, true), TakeLease(ok), Unprobe];
      assert [Probe(job, true)] + ([TakeLease(ok)] + ([Unprobe] + [])) == steps;
      PlayThree(old(View()), Probe(job, true), TakeLease(ok), Unprobe);
    }

    method ReleaseStore(job: int)
      requires Valid() && !closed
      modifies this`storeJobs, this`storeLeaseHeld, locks
      ensures Valid() && storeJobs == old(storeJobs) - {job}
      ensures Plays(old(View()), [Release(job)]) && View() == Replay(old(View()), [Release(job)])
      ensures PlaysIn(old(locks.View()), pid, old(View()), [Release(job)], locks.View())
    {
      hide ByRole, Tied, Consistent;
      PlayFirst(View(), Release(job), []);
      locks.Interleave(pid, View());
      StepTies(locks.intent, locks.writes, pid, View(), Release(job));
      storeJobs := storeJobs - {job};
      if storeLeaseHeld && storeJobs == {} {
        locks.writes := locks.writes.Unlock(Fd(pid, Write));
        storeLeaseHeld := false;
      }
      PlaysInFirst(old(locks.View()), pid, old(View()), Release(job), [], locks.View());
    }

    /** Whether this or a sibling process owns eviction. */
    method EvictionActive() returns (active: bool, ghost steps: seq<Step>)
      requires Valid() && !closed
      modifies locks
      ensures Valid() && View() == old(View())
      ensures Plays(View(), steps) && View() == Replay(View(), steps)
      ensures PlaysIn(old(locks.View()), pid, View(), steps, locks.View())
      ensures steps == if ownsEviction then [] else if active then [Query(false)] else [Query(true), Unprobe]
      ensures active <==>
                ownsEviction || !old(locks.View()).Later(pid).intent.GrantsShared(Fd(pid, IntentProbe))
    {
      hide ByRole, Tied, Consistent;
      if ownsEviction {
        return true, [];
      }
      locks.Interleave(pid, View());
      ghost var query := Query(locks.intent.GrantsShared(Fd(pid, IntentProbe)));
      StepTies(locks.intent, locks.writes, pid, View(), query);
      var free := locks.TryIntent(Fd(pid, IntentProbe), false);
      PlayTwo(View(), Query(true), Unprobe);
      if !free {
        PlaysInFirst(old(locks.View()), pid, View(), Query(false), [], locks.View());
        return true, [Query(false)];
      }
      ghost var g, w := View().(call := Unprobing), locks.View();
      DropProbe(g);
      PlaysInFirst(w, pid, g, Unprobe, [], locks.View());
      PlaysInFirst(old(locks.View()), pid, View(), Query(true), [Unprobe] + [], locks.View());
      assert [Query(true)] + ([Unprobe] + []) == [Query(true), Unprobe];
      return false, [Query(true), Unprobe];
    }

    method LiftTheFence(closing: bool)
      requires Valid() && !closed
      modifies this`writesFenced, locks
      ensures !writesFenced && locks.View() == old(locks.View()).Later(pid).Called(pid, old(View()), LiftFence(closing))
      ensures Standing(After(old(View()), LiftFence(closing)))
    {
      hide ByRole, Tied, Consistent;
      locks.Interleave(pid, View());
      StepTies(locks.intent, locks.writes, pid, View(), LiftFence(closing));
      if writesFenced {
        locks.writes := locks.writes.Unlock(Fd(pid, EvictionWrite));
        writesFenced := false;
      }
    }

    method GiveUpIntent(ghost g: Gate)
      requires g == View().(call := g.call) && g.call.Lifting? && !closed && Standing(g)
      modifies this`ownsEviction, locks
      ensures !ownsEviction && locks.View() == old(locks.View()).Later(pid).Called(pid, g, LiftIntent)
      ensures Standing(After(g, LiftIntent))
    {
      hide ByRole, Tied, Consistent;
      locks.Interleave(pid, g);
      StepTies(locks.intent, locks.writes, pid, g, LiftIntent);
      if ownsEviction {
        locks.intent := locks.intent.Unlock(Fd(pid, Intent));
        ownsEviction := false;
      }
    }

    /** Lift the write fence, then give up ownership. */
    method FinishEviction()
      requires Valid() && !closed
      modifies this`writesFenced, this`ownsEviction, locks
      ensures Valid() && !ownsEviction && !writesFenced
      ensures Plays(old(View()), [LiftFence(false), LiftIntent])
      ensures View() == Replay(old(View()), [LiftFence(false), LiftIntent])
      ensures PlaysIn(old(locks.View()), pid, old(View()), [LiftFence(false), LiftIntent], locks.View())
    {
      hide ByRole, Tied, Consistent;
      PlayTwo(View(), LiftFence(false), LiftIntent);
      LiftTheFence(false);
      ghost var g, w := After(old(View()), LiftFence(false)), locks.View();
      GiveUpIntent(g);
      PlaysInFirst(w, pid, g, LiftIntent, [], locks.View());
      PlaysInFirst(old(locks.View()), pid, old(View()), LiftFence(false), [LiftIntent] + [], locks.View());
      assert [LiftFence(false)] + ([LiftIntent] + []) == [LiftFence(false), LiftIntent];
    }

    method Close()
      requires Valid()
      modifies this, locks
      ensures Valid() && View() == FRESH.(closed := true)
      ensures !old(closed) ==>
                && Plays(old(View()), [LiftFence(true), LiftIntent, CloseLease])
                && View() == Replay(old(View()), [LiftFence(true), LiftIntent, CloseLease])
                && PlaysIn(old(locks.View()), pid, old(View()), [LiftFence(true), LiftIntent, CloseLease], locks.View())
      ensures Unheld(locks.intent, locks.writes, pid)
    {
      if !closed {
        hide ByRole, Tied, Consistent;
        PlayThree(View(), LiftFence(true), LiftIntent, CloseLease);
        LiftTheFence(true);
        ghost var g1, w1 := After(old(View()), LiftFence(true)), locks.View();
        GiveUpIntent(g1);
        ghost var g2, w2 := After(g1, LiftIntent), locks.View();
        DropLease(g2);
        PlaysInFirst(w2, pid, g2, CloseLease, [], locks.View());
        PlaysInFirst(w1, pid, g1, LiftIntent, [CloseLease] + [], locks.View());
        PlaysInFirst(old(locks.View()), pid, old(View()), LiftFence(true), [LiftIntent] + ([CloseLease] + []),
                     locks.View());
        assert [LiftFence(true)] + ([LiftIntent] + ([CloseLease] + [])) == [LiftFence(true), LiftIntent, CloseLease];
      }
      ClosedHolds();
    }

    /** A closed gate holds nothing. */
    lemma ClosedHolds()
      requires Valid() && closed
      ensures View() == FRESH.(closed := true) && Unheld(locks.intent, locks.writes, pid)
    {
    }

    method DropLease(ghost g: Gate)
      requires g == View().(call := ClosingLease) && !closed && Standing(g)
      modifies this`storeJobs, this`storeLeaseHeld, this`closed, locks
      ensures Valid() && closed && locks.View() == old(locks.View()).Later(pid).Called(pid, g, CloseLease)
    {
      hide ByRole, Tied, Consistent;
      locks.Interleave(pid, g);
      StepTies(locks.intent, locks.writes, pid, g, CloseLease);
      if storeLeaseHeld {
        locks.writes := locks.writes.Unlock(Fd(pid, Write));
        storeLeaseHeld := false;
      }
      storeJobs := {};
      closed := true;
    }
  }
}
