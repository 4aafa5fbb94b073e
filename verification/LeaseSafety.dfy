/** When a lease protects: the conditions, on the host, under which a process's accounting stays exact and a
    shard it holds cannot be evicted under it.
 */
module LeaseSafety {
  import opened Flock
  import opened LeaseProtocol
  import opened ShardLeases
  import ShardIndex

  /** A reacquire is refused if and only if the process counts the shard no more and an evictor has its lock. */
  lemma RefusedIff(h: Host, pid: nat, req: string, s: Shard, granted: bool)
    requires Inv(h) && Enabled(h, Lease(pid, RePin(req, s, granted)))
    ensures !granted <==> s !in h.procs[pid].counts && h.LockOf(s).Exclusive?
  {
    assert ByRole(h.LockOf(s));
  }

  /** In every reachable state a step keeps a process's accounting exact if and only if it is not the reacquire
      of a shard that the process counts no more while an evictor has its lock. */
  lemma StaysExactOnHostIff(actions: seq<Action>, pid: nat, step: Step)
    requires Legal(BOOTED, actions) && Enabled(Exec(BOOTED, actions), Lease(pid, step))
    requires Exact(Exec(BOOTED, actions).procs[pid])
    ensures var h := Exec(BOOTED, actions);
            Exact(Next(h, Lease(pid, step)).procs[pid]) <==>
              !(step.RePin? && step.shard !in h.procs[pid].counts && h.LockOf(step.shard).Exclusive?)
  {
    ExecKeeps(BOOTED, actions);
    hide Legal, Exec, Exact, After, Inv;
    var h := Exec(BOOTED, actions);
    StaysExactIff(h.procs[pid], step);
    if step.RePin? {
      RefusedIff(h, pid, step.req, step.shard, step.granted);
    }
  }

  /** What the lock shows of the holds of other processes. */
  predicate Shows(lock: Lock<Fd>, pid: nat, others: ShardIndex.Others, s: Shard) {
    match lock
    case Shared(fds) =>
      ((exists fd :: fd in fds && fd.pid != pid) <==> s in others) && (s in others ==> others[s].Readers?)
    case Exclusive(owner) => (owner.pid != pid <==> s in others) && (s in others ==> others[s].Evictor?)
  }

  /** The answers that the index's lock calls meet are those of `flock`: a lease is granted unless an evictor, of
      another process or of its own, has the lock, and an eviction unless anybody else has it. */
  lemma AnswersAreFlocks(lock: Lock<Fd>, pid: nat, others: ShardIndex.Others, s: Shard)
    requires ByRole(lock) && Shows(lock, pid, others, s)
    ensures lock.GrantsShared(Fd(pid, false)) <==>
              lock != Exclusive(Fd(pid, true)) && ShardIndex.Grants(others, s, false)
    ensures lock.GrantsExclusive(Fd(pid, true)) <==>
              !lock.Holds(Fd(pid, false)) && ShardIndex.Grants(others, s, true)
  {
    if lock.Shared? {
      assert forall fd :: fd in lock.holders && fd.pid == pid ==> fd == Fd(pid, false);
      if lock.holders <= {Fd(pid, true)} {
        assert forall fd :: fd in lock.holders ==> fd in {Fd(pid, true)};
      }
    }
  }

  /** Only others move. */
  predicate Spares(a: Action, pid: nat) {
    match a
    case Lease(p, _) => p != pid
    case Launch(p) => p != pid
    case Crash(p) => p != pid
    case Reap(_, _) => true
  }

  predicate AllSpare(actions: seq<Action>, pid: nat) {
    forall i :: 0 <= i < |actions| ==> Spares(actions[i], pid)
  }

  predicate UnderEviction(h: Host, s: Shard) {
    exists pid :: pid in h.procs && s in h.procs[pid].evicting
  }

  /** Whatever the others do, crashes and relaunches included, the shard is not evicted as long as this process
      does nothing. */
  ghost predicate Protected(h: Host, pid: nat, s: Shard) {
    forall actions :: Legal(h, actions) && AllSpare(actions, pid) ==> !UnderEviction(Exec(h, actions), s)
  }

  lemma {:induction false} OthersKeepIndex(h: Host, actions: seq<Action>, pid: nat)
    requires Legal(h, actions) && AllSpare(actions, pid) && pid in h.procs
    ensures pid in Exec(h, actions).procs && Exec(h, actions).procs[pid] == h.procs[pid]
    decreases |actions|
  {
    hide After, LockAfter, OutcomeIs, Can;
    if actions != [] {
      assert Spares(actions[0], pid);
      OthersKeepIndex(Next(h, actions[0]), actions[1..], pid);
    }
  }

  lemma CountedIsProtected(h: Host, pid: nat, s: Shard)
    requires Inv(h) && pid in h.procs && s in h.procs[pid].counts
    ensures Protected(h, pid, s)
  {
    hide Inv, Legal, Exec;
    forall actions | Legal(h, actions) && AllSpare(actions, pid) ensures !UnderEviction(Exec(h, actions), s) {
      OthersKeepIndex(h, actions, pid);
      ExecKeeps(h, actions);
      ExclusionHolds(Exec(h, actions));
    }
  }

  lemma First(h: Host, a: Action, rest: seq<Action>)
    requires Enabled(h, a) && Legal(Next(h, a), rest)
    ensures Legal(h, [a] + rest) && Exec(h, [a] + rest) == Exec(Next(h, a), rest)
  {
    hide Enabled, Next;
    assert ([a] + rest)[1..] == rest;
  }

  function Size(lock: Lock<Fd>): nat {
    if lock.Shared? then |lock.holders| else 1
  }

  /** A process crashes, if it is alive. */
  lemma Kills(h: Host, pid: nat, s: Shard, victim: nat) returns (actions: seq<Action>, next: Host)
    requires Inv(h) && pid in h.procs && pid != victim && !UnderEviction(h, s)
    ensures Legal(h, actions) && AllSpare(actions, pid) && Exec(h, actions) == next
    ensures Inv(next) && pid in next.procs && next.procs[pid] == h.procs[pid] && !UnderEviction(next, s)
    ensures next.locks == h.locks && victim !in next.procs
  {
    hide Inv, UnderEviction;
    Nothing(h);
    actions, next := [], h;
    if victim in h.procs {
      next := Next(h, Crash(victim));
      CrashKeeps(h, victim);
      CrashEvictsNone(h, victim, s);
      Nothing(next);
      First(h, Crash(victim), []);
      actions := [Crash(victim)] + [];
    }
  }

  /** A dead holder of the lock is reaped. */
  lemma Reaps(h: Host, pid: nat, s: Shard, fd: Fd) returns (actions: seq<Action>, next: Host)
    requires Inv(h) && fd.pid !in h.procs && !UnderEviction(h, s)
    ensures Legal(h, actions) && AllSpare(actions, pid) && Exec(h, actions) == next
    ensures Inv(next) && next.procs == h.procs && !UnderEviction(next, s)
    ensures next.LockOf(s) == h.LockOf(s).Unlock(fd)
  {
    hide Inv, UnderEviction;
    next := Next(h, Reap(s, fd));
    ReapKeeps(h, s, fd);
    ReapEvictsNone(h, s, fd);
    Nothing(next);
    First(h, Reap(s, fd), []);
    actions := [Reap(s, fd)] + [];
  }

  /** One holder of a lock the process does not hold crashes, if it is alive, and is reaped. */
  lemma FreesOne(h: Host, pid: nat, s: Shard) returns (actions: seq<Action>, next: Host)
    requires Inv(h) && pid in h.procs && s !in h.procs[pid].counts && !UnderEviction(h, s)
    requires h.LockOf(s) != Shared({})
    ensures Legal(h, actions) && AllSpare(actions, pid) && Exec(h, actions) == next
    ensures Inv(next) && pid in next.procs && next.procs[pid] == h.procs[pid] && !UnderEviction(next, s)
    ensures next.LockOf(s) == Shared({}) || Size(next.LockOf(s)) < Size(h.LockOf(s))
  {
    hide Inv, UnderEviction, Legal, Exec, Enabled, Next;
    var fd := HolderOf(h.LockOf(s));
    NotItsOwn(h, pid, s, fd);
    var dead, rest;
    actions, dead := Kills(h, pid, s, fd.pid);
    rest, next := Reaps(dead, pid, s, fd);
    Then(h, actions, rest);
    BothSpare(actions, rest, pid);
    actions := actions + rest;
  }

  lemma BothSpare(a: seq<Action>, b: seq<Action>, pid: nat)
    requires AllSpare(a, pid) && AllSpare(b, pid)
    ensures AllSpare(a + b, pid)
  {
  }

  /** A lock the process does not hold is one that others' crashes free. */
  lemma {:induction false} Frees(h: Host, pid: nat, s: Shard) returns (actions: seq<Action>)
    requires Inv(h) && pid in h.procs && s !in h.procs[pid].counts && !UnderEviction(h, s)
    ensures Legal(h, actions) && AllSpare(actions, pid) && Exec(h, actions).LockOf(s) == Shared({})
    ensures pid in Exec(h, actions).procs
    decreases Size(h.LockOf(s))
  {
    hide Inv, UnderEviction, Legal, Exec;
    Nothing(h);
    actions := [];
    if h.LockOf(s) != Shared({}) {
      var next;
      actions, next := FreesOne(h, pid, s);
      if next.LockOf(s) != Shared({}) {
        var rest := Frees(next, pid, s);
        Then(h, actions, rest);
        BothSpare(actions, rest, pid);
        actions := actions + rest;
      }
    }
  }

  lemma HolderOf(lock: Lock<Fd>) returns (fd: Fd)
    requires lock != Shared({})
    ensures lock.Holds(fd) && (lock.Exclusive? ==> lock.Unlock(fd) == Shared({}))
    ensures lock.Shared? ==> lock.Unlock(fd).Shared? && |lock.Unlock(fd).holders| < |lock.holders|
  {
    if lock.Exclusive? {
      fd := lock.holder;
    } else {
      assert lock.holders != {};
      fd :| fd in lock.holders;
    }
  }

  /** A holder of a lock that protects nothing of the process, and of which nobody is evicting, is somebody
      else's; an evictor's is a dead process's. */
  lemma NotItsOwn(h: Host, pid: nat, s: Shard, fd: Fd)
    requires Inv(h) && pid in h.procs && s !in h.procs[pid].counts && !UnderEviction(h, s)
    requires h.LockOf(s).Holds(fd)
    ensures fd.pid != pid
  {
    assert Tied(h, pid, h.procs[pid]) && ByRole(h.LockOf(s));
    assert TiedAt(h.LockOf(s), pid, s in h.procs[pid].descriptors, s in h.procs[pid].evicting);
    assert s !in h.procs[pid].descriptors && s !in h.procs[pid].evicting;
    assert fd == Fd(fd.pid, fd.evictor);
  }

  lemma CrashEvictsNone(h: Host, dead: nat, s: Shard)
    requires !UnderEviction(h, s)
    ensures !UnderEviction(Next(h, Crash(dead)), s)
  {
  }

  lemma ReapEvictsNone(h: Host, s: Shard, fd: Fd)
    requires !UnderEviction(h, s)
    ensures !UnderEviction(Next(h, Reap(s, fd)), s)
  {
  }

  lemma {:induction false} Above(pids: set<nat>) returns (n: nat)
    ensures forall p :: p in pids ==> p < n
    decreases pids
  {
    n := 0;
    if pids != {} {
      var p :| p in pids;
      var m := Above(pids - {p});
      n := if m <= p then p + 1 else m;
      forall q | q in pids ensures q < n {
        assert q == p || q in pids - {p};
      }
    }
  }

  function HoldersOf(lock: Lock<Fd>): set<nat> {
    match lock
    case Shared(fds) => set fd | fd in fds :: fd.pid
    case Exclusive(fd) => {fd.pid}
  }

  function AllHolders(h: Host): set<nat> {
    set s, p | s in h.locks && p in HoldersOf(h.locks[s]) :: p
  }

  lemma HolderKnown(h: Host, s: Shard, fd: Fd)
    requires h.LockOf(s).Holds(fd)
    ensures fd.pid in AllHolders(h)
  {
    assert s in h.locks && fd.pid in HoldersOf(h.locks[s]);
  }

  /** There is always another process to come. */
  lemma Newcomer(h: Host) returns (n: nat)
    ensures n !in h.procs && Unheld(h, n)
  {
    n := Above(h.procs.Keys + AllHolders(h));
    assert n !in h.procs.Keys + AllHolders(h);
    forall s, evictor ensures !h.LockOf(s).Holds(Fd(n, evictor)) {
      if h.LockOf(s).Holds(Fd(n, evictor)) {
        HolderKnown(h, s, Fd(n, evictor));
      }
    }
  }

  /** Once its lock is free, a newcomer can evict a shard. */
  lemma NewcomerEvicts(h: Host, pid: nat, s: Shard) returns (actions: seq<Action>)
    requires h.LockOf(s) == Shared({}) && pid in h.procs
    ensures Legal(h, actions) && AllSpare(actions, pid) && UnderEviction(Exec(h, actions), s)
  {
    var n := Newcomer(h);
    var launched := Next(h, Launch(n));
    var e := Lease(n, BeginEviction(s, true));
    assert launched.LockOf(s) == Shared({}) && launched.procs[n] == EMPTY && !EMPTY.Leased(s);
    assert Enabled(launched, e);
    var last := Next(launched, e);
    assert n in last.procs && s in last.procs[n].evicting;
    assert Legal(last, []) && Exec(last, []) == last;
    First(launched, e, []);
    First(h, Launch(n), [e] + []);
    actions := [Launch(n)] + ([e] + []);
  }

  lemma {:induction false} Then(h: Host, first: seq<Action>, rest: seq<Action>)
    requires Legal(h, first) && Legal(Exec(h, first), rest)
    ensures Legal(h, first + rest) && Exec(h, first + rest) == Exec(Exec(h, first), rest)
    decreases |first|
  {
    hide Enabled, Next;
    if first == [] {
      assert first + rest == rest;
    } else {
      Then(Next(h, first[0]), first[1..], rest);
      assert (first + rest)[1..] == first[1..] + rest;
    }
  }

  lemma UncountedIsExposed(h: Host, pid: nat, s: Shard)
    requires Inv(h) && pid in h.procs && s !in h.procs[pid].counts
    ensures !Protected(h, pid, s)
  {
    hide Inv, Legal, Exec, UnderEviction;
    if UnderEviction(h, s) {
      Nothing(h);
    } else {
      var first := Frees(h, pid, s);
      var rest := NewcomerEvicts(Exec(h, first), pid, s);
      Then(h, first, rest);
      BothSpare(first, rest, pid);
    }
  }

  lemma Nothing(h: Host)
    ensures Legal(h, []) && Exec(h, []) == h
  {
  }

  /** In every reachable state: a shard is safe from eviction, whatever the other processes go on to do, if and
      only if this process counts it. */
  lemma ProtectedIff(actions: seq<Action>, pid: nat, s: Shard)
    requires Legal(BOOTED, actions) && pid in Exec(BOOTED, actions).procs
    ensures Protected(Exec(BOOTED, actions), pid, s) <==> s in Exec(BOOTED, actions).procs[pid].counts
  {
    ExecKeeps(BOOTED, actions);
    hide Legal, Exec, Inv, Protected;
    var h := Exec(BOOTED, actions);
    if s in h.procs[pid].counts {
      CountedIsProtected(h, pid, s);
    } else {
      UncountedIsExposed(h, pid, s);
    }
  }

  /** So all shards a process holds, for requests, lookups and jobs, are safe if and only if each of them is still
      counted; with exact accounting they are. */
  lemma HeldShardsSafeIff(actions: seq<Action>, pid: nat)
    requires Legal(BOOTED, actions) && pid in Exec(BOOTED, actions).procs
    ensures var h := Exec(BOOTED, actions);
            && ((forall s :: s in h.procs[pid].Recorded() ==> Protected(h, pid, s)) <==>
                  (forall s :: s in h.procs[pid].Recorded() ==> s in h.procs[pid].counts))
            && (Exact(h.procs[pid]) ==> forall s :: s in h.procs[pid].Recorded() ==> Protected(h, pid, s))
  {
    hide Legal, Exec, Protected, Index.Recorded;
    forall s ensures Protected(Exec(BOOTED, actions), pid, s) <==> s in Exec(BOOTED, actions).procs[pid].counts {
      ProtectedIff(actions, pid, s);
    }
  }
}
