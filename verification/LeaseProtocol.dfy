/** Any number of processes leasing and evicting shards of one cache: one transition per lock
    call, with crashes and relaunches, in any interleaving of threads and processes.
 */
module LeaseProtocol {
  import opened Flock
  import opened ShardLeases

  /** A process's descriptor on a shard's lock file: a reader's or its evictor's. */
  datatype Fd = Fd(pid: nat, evictor: bool)

  datatype Host = Host(locks: map<Shard, Lock<Fd>>, procs: map<nat, Index>) {
    function LockOf(s: Shard): Lock<Fd> {
      if s in locks then locks[s] else Shared({})
    }
  }

  const BOOTED := Host(map[], map[])

  datatype Action =
    | Lease(pid: nat, step: Step)
    | Launch(pid: nat)
    | Crash(pid: nat)
    | Reap(shard: Shard, fd: Fd)

  predicate Acquires(step: Step) {
    step.AddPending? || step.AddPin? || step.RePin? || step.AddJob?
  }

  predicate Drops(step: Step) {
    step.DropPending? || step.DropPin? || step.DropJob?
  }

  /** The outcome a step records is the one the shard's lock gives. */
  predicate OutcomeIs(lock: Lock<Fd>, pid: nat, ix: Index, step: Step) {
    && (Acquires(step) ==> step.granted == (step.shard in ix.counts || lock.GrantsShared(Fd(pid, false))))
    && (step.BeginEviction? ==> step.granted == lock.GrantsExclusive(Fd(pid, true)))
  }

  /** What a step on its shard does to the shard's lock. */
  function LockAfter(lock: Lock<Fd>, pid: nat, ix: Index, step: Step): Lock<Fd> {
    if Acquires(step) then
      if step.granted && step.shard !in ix.counts then lock.LockShared(Fd(pid, false)) else lock
    else if Drops(step) then
      if step.shard in ix.descriptors && ix.counts[step.shard] <= 1 then lock.Unlock(Fd(pid, false)) else lock
    else if step.BeginEviction? then lock.LockExclusive(Fd(pid, true))
    else if step.EndEviction? then lock.Unlock(Fd(pid, true))
    else lock
  }

  predicate OnShard(step: Step) {
    Acquires(step) || Drops(step) || step.BeginEviction? || step.EndEviction?
  }

  ghost predicate Unheld(h: Host, pid: nat) {
    forall s, evictor :: !h.LockOf(s).Holds(Fd(pid, evictor))
  }

  ghost predicate Enabled(h: Host, a: Action) {
    match a
    case Lease(pid, step) =>
      && pid in h.procs && Can(h.procs[pid], step)
      && (OnShard(step) ==> OutcomeIs(h.LockOf(step.shard), pid, h.procs[pid], step))
    case Launch(pid) =>
      pid !in h.procs && Unheld(h, pid)
    case Crash(pid) => pid in h.procs
    case Reap(_, fd) => fd.pid !in h.procs
  }

  function Next(h: Host, a: Action): Host {
    match a
    case Lease(pid, step) =>
      if pid !in h.procs then h else
        var ix := h.procs[pid];
        Host(if OnShard(step) then h.locks[step.shard := LockAfter(h.LockOf(step.shard), pid, ix, step)] else h.locks,
             h.procs[pid := After(ix, step)])
    case Launch(pid) => h.(procs := h.procs[pid := EMPTY])
    case Crash(pid) => h.(procs := h.procs - {pid})
    case Reap(s, fd) => h.(locks := h.locks[s := h.LockOf(s).Unlock(fd)])
  }

  ghost predicate Legal(h: Host, actions: seq<Action>)
    decreases |actions|
  {
    actions == [] || (Enabled(h, actions[0]) && Legal(Next(h, actions[0]), actions[1..]))
  }

  function Exec(h: Host, actions: seq<Action>): Host
    decreases |actions|
  {
    if actions == [] then h else Exec(Next(h, actions[0]), actions[1..])
  }

  /** Readers share a shard's lock, an evictor holds it alone. */
  predicate ByRole(lock: Lock<Fd>) {
    match lock
    case Shared(fds) => forall fd :: fd in fds ==> !fd.evictor
    case Exclusive(owner) => owner.evictor
  }

  /** The process holds the lock exactly as its index says. */
  predicate TiedAt(lock: Lock<Fd>, pid: nat, leased: bool, evicting: bool) {
    && (leased <==> lock.Holds(Fd(pid, false)))
    && (evicting <==> lock == Exclusive(Fd(pid, true)))
  }

  ghost predicate Tied(h: Host, pid: nat, ix: Index) {
    forall s :: TiedAt(h.LockOf(s), pid, s in ix.descriptors, s in ix.evicting)
  }

  ghost predicate AllByRole(h: Host) {
    forall s :: ByRole(h.LockOf(s))
  }

  ghost predicate Inv(h: Host) {
    && AllByRole(h)
    && forall pid :: pid in h.procs ==> NoLeak(h.procs[pid]) && Tied(h, pid, h.procs[pid])
  }

  /** A step's lock call keeps the shard's lock tied for the process that makes it. */
  lemma StepTies(lock: Lock<Fd>, pid: nat, ix: Index, step: Step)
    requires NoLeak(ix) && Can(ix, step) && OnShard(step) && OutcomeIs(lock, pid, ix, step)
    requires ByRole(lock) && TiedAt(lock, pid, step.shard in ix.descriptors, step.shard in ix.evicting)
    ensures var lock' := LockAfter(lock, pid, ix, step);
            var ix' := After(ix, step);
            ByRole(lock') && TiedAt(lock', pid, step.shard in ix'.descriptors, step.shard in ix'.evicting)
  {
    hide Put, Of, Index.Recorded, Total, ClosedAfter, Without;
    DropHolds(ix, step);
  }

  /** A shard whose holder is dropped may no longer be counted, if a reacquire was refused. */
  lemma DropHolds(ix: Index, step: Step)
    requires NoLeak(ix)
    ensures OnShard(step) ==> (step.shard in ix.descriptors <==> step.shard in ix.counts)
  {
  }

  lemma StepTiesOthers(lock: Lock<Fd>, pid: nat, ix: Index, step: Step, other: nat, leased: bool, evicting: bool)
    requires other != pid && ByRole(lock) && TiedAt(lock, other, leased, evicting)
    requires NoLeak(ix) && Can(ix, step) && OnShard(step) && OutcomeIs(lock, pid, ix, step)
    requires TiedAt(lock, pid, step.shard in ix.descriptors, step.shard in ix.evicting)
    ensures TiedAt(LockAfter(lock, pid, ix, step), other, leased, evicting)
  {
    hide Can, NoLeak;
    DropHolds(ix, step);
  }

  /** A step changes leases and evictions of its own shard only. */
  lemma OtherShards(ix: Index, step: Step, s: Shard)
    requires OnShard(step) ==> s != step.shard
    ensures s in After(ix, step).descriptors <==> s in ix.descriptors
    ensures s in After(ix, step).evicting <==> s in ix.evicting
  {
    hide Put, Of, ClosedAfter, Without;
  }

  lemma LeaseKeepsLocks(h: Host, pid: nat, step: Step)
    requires Inv(h) && Enabled(h, Lease(pid, step))
    ensures AllByRole(Next(h, Lease(pid, step)))
    ensures Tied(Next(h, Lease(pid, step)), pid, After(h.procs[pid], step))
  {
    hide Can, NoLeak, ByRole, TiedAt, After, OutcomeIs, LockAfter;
    var ix := h.procs[pid];
    var h' := Next(h, Lease(pid, step));
    assert Tied(h, pid, ix) && NoLeak(ix);
    forall s
      ensures ByRole(h'.LockOf(s))
      ensures TiedAt(h'.LockOf(s), pid, s in After(ix, step).descriptors, s in After(ix, step).evicting)
    {
      if OnShard(step) && s == step.shard {
        StepTies(h.LockOf(s), pid, ix, step);
      } else {
        OtherShards(ix, step, s);
        assert h'.LockOf(s) == h.LockOf(s);
      }
    }
  }

  lemma LeaseKeepsOther(h: Host, pid: nat, step: Step, other: nat)
    requires Inv(h) && Enabled(h, Lease(pid, step)) && other != pid && other in h.procs
    ensures Tied(Next(h, Lease(pid, step)), other, h.procs[other])
  {
    hide Can, NoLeak, ByRole, TiedAt, After, OutcomeIs, LockAfter;
    var ix := h.procs[pid];
    var og := h.procs[other];
    var h' := Next(h, Lease(pid, step));
    assert Tied(h, pid, ix) && NoLeak(ix) && Tied(h, other, og);
    forall s ensures TiedAt(h'.LockOf(s), other, s in og.descriptors, s in og.evicting) {
      if OnShard(step) && s == step.shard {
        StepTiesOthers(h.LockOf(s), pid, ix, step, other, s in og.descriptors, s in og.evicting);
      } else {
        assert h'.LockOf(s) == h.LockOf(s);
      }
    }
  }

  lemma LeaseKeeps(h: Host, pid: nat, step: Step)
    requires Inv(h) && Enabled(h, Lease(pid, step))
    ensures Inv(Next(h, Lease(pid, step)))
  {
    hide Can, NoLeak, Tied, AllByRole, After, OutcomeIs, LockAfter, Acquires, Drops;
    StepLeaksNothing(h.procs[pid], step);
    LeaseKeepsLocks(h, pid, step);
    var h' := Next(h, Lease(pid, step));
    forall other | other in h'.procs ensures NoLeak(h'.procs[other]) && Tied(h', other, h'.procs[other]) {
      if other != pid {
        LeaseKeepsOther(h, pid, step, other);
      }
    }
  }

  lemma UnheldTied(h: Host, pid: nat)
    requires Unheld(h, pid)
    ensures Tied(h, pid, EMPTY)
  {
    forall s ensures TiedAt(h.LockOf(s), pid, false, false) {
      assert !h.LockOf(s).Holds(Fd(pid, false)) && !h.LockOf(s).Holds(Fd(pid, true));
    }
  }

  /** Ties depend on the locks alone. */
  lemma SameLocks(h: Host, h': Host, pid: nat, ix: Index)
    requires Tied(h, pid, ix) && h'.locks == h.locks
    ensures Tied(h', pid, ix)
  {
    hide TiedAt;
    forall s ensures h'.LockOf(s) == h.LockOf(s) {
    }
  }

  lemma EmptyLeaksNothing()
    ensures NoLeak(EMPTY)
  {
  }

  lemma LaunchKeeps(h: Host, pid: nat)
    requires Inv(h) && Enabled(h, Launch(pid))
    ensures Inv(Next(h, Launch(pid)))
  {
    hide ByRole, Tied, NoLeak, Unheld;
    var h' := Next(h, Launch(pid));
    UnheldTied(h, pid);
    EmptyLeaksNothing();
    forall other | other in h'.procs ensures NoLeak(h'.procs[other]) && Tied(h', other, h'.procs[other]) {
      SameLocks(h, h', other, h'.procs[other]);
    }
    forall s ensures h'.LockOf(s) == h.LockOf(s) {
    }
  }

  lemma ReapTies(lock: Lock<Fd>, fd: Fd, pid: nat, leased: bool, evicting: bool)
    requires ByRole(lock) && fd.pid != pid && TiedAt(lock, pid, leased, evicting)
    ensures ByRole(lock.Unlock(fd)) && TiedAt(lock.Unlock(fd), pid, leased, evicting)
  {
  }

  lemma ReapRole(lock: Lock<Fd>, fd: Fd)
    requires ByRole(lock)
    ensures ByRole(lock.Unlock(fd))
  {
  }

  lemma ReapKeeps(h: Host, shard: Shard, fd: Fd)
    requires Inv(h) && Enabled(h, Reap(shard, fd))
    ensures Inv(Next(h, Reap(shard, fd)))
  {
    hide NoLeak, ByRole, TiedAt;
    var h' := Next(h, Reap(shard, fd));
    forall s ensures ByRole(h'.LockOf(s)) {
      ReapRole(h.LockOf(s), fd);
    }
    forall pid | pid in h'.procs ensures Tied(h', pid, h'.procs[pid]) {
      assert Tied(h, pid, h.procs[pid]);
      forall s ensures TiedAt(h'.LockOf(s), pid, s in h.procs[pid].descriptors, s in h.procs[pid].evicting) {
        ReapTies(h.LockOf(s), fd, pid, s in h.procs[pid].descriptors, s in h.procs[pid].evicting);
      }
    }
  }

  lemma CrashKeeps(h: Host, pid: nat)
    requires Inv(h)
    ensures Inv(Next(h, Crash(pid)))
  {
    hide NoLeak, ByRole, TiedAt;
    var h' := Next(h, Crash(pid));
    forall s ensures h'.LockOf(s) == h.LockOf(s) {
    }
    forall other | other in h'.procs ensures Tied(h', other, h'.procs[other]) {
      assert Tied(h, other, h.procs[other]);
    }
  }

  lemma NextKeeps(h: Host, a: Action)
    requires Inv(h) && Enabled(h, a)
    ensures Inv(Next(h, a))
  {
    hide Inv;
    match a {
      case Lease(pid, step) => LeaseKeeps(h, pid, step);
      case Launch(pid) => LaunchKeeps(h, pid);
      case Crash(pid) => CrashKeeps(h, pid);
      case Reap(s, fd) => ReapKeeps(h, s, fd);
    }
  }

  /** A shard that any process is evicting is counted by none. */
  ghost predicate Exclusion(h: Host) {
    forall evictor, pid, s ::
      evictor in h.procs && pid in h.procs && s in h.procs[evictor].evicting ==>
        s !in h.procs[pid].counts && (pid != evictor ==> s !in h.procs[pid].evicting)
  }

  lemma ExclusionHolds(h: Host)
    requires Inv(h)
    ensures Exclusion(h)
  {
    forall evictor, pid, s | evictor in h.procs && pid in h.procs && s in h.procs[evictor].evicting
      ensures s !in h.procs[pid].counts && (pid != evictor ==> s !in h.procs[pid].evicting)
    {
      assert Tied(h, evictor, h.procs[evictor]) && Tied(h, pid, h.procs[pid]);
      assert TiedAt(h.LockOf(s), evictor, s in h.procs[evictor].descriptors, true);
      assert TiedAt(h.LockOf(s), pid, s in h.procs[pid].descriptors, s in h.procs[pid].evicting);
      DropHolds(h.procs[pid], EndEviction(s));
    }
  }

  lemma {:induction false} ExecKeeps(h: Host, actions: seq<Action>)
    requires Inv(h) && Legal(h, actions)
    ensures Inv(Exec(h, actions))
    decreases |actions|
  {
    hide Inv, Enabled, Next;
    if actions != [] {
      NextKeeps(h, actions[0]);
      ExecKeeps(Next(h, actions[0]), actions[1..]);
    }
  }

  /** In every reachable state, crashes and refused locks included: no process leaks a lease, a
      shard under eviction is counted nowhere, and no two processes evict the same shard. */
  lemma RunsExclude(actions: seq<Action>, pid: nat)
    requires Legal(BOOTED, actions)
    ensures Exclusion(Exec(BOOTED, actions))
    ensures pid in Exec(BOOTED, actions).procs ==> NoLeak(Exec(BOOTED, actions).procs[pid])
  {
    ExecKeeps(BOOTED, actions);
    hide Legal, Exec;
    ExclusionHolds(Exec(BOOTED, actions));
  }

  /** Process `pid` had every reacquire granted. */
  predicate NeverForgets(actions: seq<Action>, pid: nat) {
    forall i :: 0 <= i < |actions| && actions[i].Lease? && actions[i].pid == pid ==> !Forgotten(actions[i].step)
  }

  ghost predicate ExactFor(h: Host, pid: nat) {
    pid in h.procs ==> Exact(h.procs[pid])
  }

  lemma NextExact(h: Host, a: Action, pid: nat)
    requires Enabled(h, a) && ExactFor(h, pid)
    requires a.Lease? && a.pid == pid ==> !Forgotten(a.step)
    ensures ExactFor(Next(h, a), pid)
  {
    hide After, Can, OutcomeIs, LockAfter;
    if a.Lease? && a.pid == pid {
      StaysExactIff(h.procs[pid], a.step);
    } else if a.Launch? && a.pid == pid {
      assert Exact(EMPTY);
    }
    hide Exact;
  }

  lemma {:induction false} ExecExact(h: Host, actions: seq<Action>, pid: nat)
    requires Legal(h, actions) && ExactFor(h, pid) && NeverForgets(actions, pid)
    ensures ExactFor(Exec(h, actions), pid)
    decreases |actions|
  {
    hide Enabled, Next, ExactFor;
    if actions != [] {
      NextExact(h, actions[0], pid);
      ExecExact(Next(h, actions[0]), actions[1..], pid);
    }
  }

  /** A shard held by any holder of a process, for a request, a lookup or a job, is being evicted
      by no process, as long as all that process's reacquires were granted. */
  lemma HeldShardsAreSafe(actions: seq<Action>, pid: nat, s: Shard, evictor: nat)
    requires Legal(BOOTED, actions) && NeverForgets(actions, pid)
    requires var h := Exec(BOOTED, actions);
             pid in h.procs && evictor in h.procs && s in h.procs[pid].Recorded()
    ensures var h := Exec(BOOTED, actions);
            Exact(h.procs[pid]) && s !in h.procs[evictor].evicting
  {
    ExecExact(BOOTED, actions, pid);
    RunsExclude(actions, pid);
    hide Legal, Exec, NeverForgets;
  }

  lemma Extend(actions: seq<Action>, a: Action)
    requires Legal(BOOTED, actions) && Enabled(Exec(BOOTED, actions), a)
    ensures Legal(BOOTED, actions + [a]) && Exec(BOOTED, actions + [a]) == Next(Exec(BOOTED, actions), a)
  {
    hide Enabled, Next;
    ExtendFrom(BOOTED, actions, a);
  }

  lemma {:induction false} ExtendFrom(h: Host, actions: seq<Action>, a: Action)
    requires Legal(h, actions) && Enabled(Exec(h, actions), a)
    ensures Legal(h, actions + [a]) && Exec(h, actions + [a]) == Next(Exec(h, actions), a)
    decreases |actions|
  {
    hide Enabled, Next;
    if actions == [] {
      assert [a][1..] == [];
    } else {
      assert (actions + [a])[1..] == actions[1..] + [a];
      ExtendFrom(Next(h, actions[0]), actions[1..], a);
    }
  }

  /** One reader, process 0, and one evictor, process 1, at shard 5. */
  function Scene(reader: Index, evicting: bool): Host {
    Host(map[5 := if evicting then Exclusive(Fd(1, true)) else
                  if 5 in reader.descriptors then Shared({Fd(0, false)}) else Shared({})],
         map[0 := reader, 1 := EMPTY.(evicting := if evicting then {5} else {})])
  }

  lemma SceneEvicts(reader: Index)
    requires reader.descriptors == {}
    ensures Enabled(Scene(reader, false), Lease(1, BeginEviction(5, true)))
    ensures Next(Scene(reader, false), Lease(1, BeginEviction(5, true))) == Scene(reader, true)
    ensures Enabled(Scene(reader, true), Lease(1, EndEviction(5)))
    ensures Next(Scene(reader, true), Lease(1, EndEviction(5))) == Scene(reader, false)
  {
    hide Of, Put;
    assert EMPTY.evicting + {5} == {5} && {5} - {5} == EMPTY.evicting;
  }

  const LOOKING := EMPTY.Acquired(5).(pending := map["r" := multiset{5}])
  const PINNED := EMPTY.(pins := map["r" := multiset{5}])
  const LOADING := PINNED.Acquired(5).(jobs := map[1 := multiset{5}])
  const STRIPPED := EMPTY.(jobs := map[1 := multiset{5}])

  lemma SceneLooks()
    ensures Enabled(Scene(EMPTY, false), Lease(0, AddPending("r", 5, true)))
    ensures Next(Scene(EMPTY, false), Lease(0, AddPending("r", 5, true))) == Scene(LOOKING, false)
    ensures Enabled(Scene(LOOKING, false), Lease(0, DropPending("r", 5)))
    ensures Next(Scene(LOOKING, false), Lease(0, DropPending("r", 5))) == Scene(EMPTY, false)
  {
    hide ClosedAfter, Without;
    assert multiset{} + multiset{5} == multiset{5};
    assert Shared({}).LockShared(Fd(0, false)) == Shared({Fd(0, false)});
    assert map["r" := multiset{5}] - {"r"} == map[];
  }

  lemma SceneForgets()
    ensures Enabled(Scene(EMPTY, true), Lease(0, RePin("r", 5, false)))
    ensures Next(Scene(EMPTY, true), Lease(0, RePin("r", 5, false))) == Scene(PINNED, true)
  {
    hide ClosedAfter, Without;
    assert multiset{} + multiset{5} == multiset{5};
  }

  lemma SceneLoads()
    ensures Enabled(Scene(PINNED, false), Lease(0, AddJob(1, 5, true)))
    ensures Next(Scene(PINNED, false), Lease(0, AddJob(1, 5, true))) == Scene(LOADING, false)
    ensures Enabled(Scene(LOADING, false), Lease(0, DropPin("r", 5)))
    ensures Next(Scene(LOADING, false), Lease(0, DropPin("r", 5))) == Scene(STRIPPED, false)
  {
    hide ClosedAfter, Without;
    assert multiset{} + multiset{5} == multiset{5};
    assert Shared({}).LockShared(Fd(0, false)) == Shared({Fd(0, false)});
    assert map["r" := multiset{5}] - {"r"} == map[];
  }

  /** Without the proviso the guarantee fails: a lookup whose reacquire is refused records a pin
      nobody counts, and releasing that pin takes away the lease of a running load, so that its
      shard is evicted under it. */
  lemma RefusedReacquireLosesLease() returns (actions: seq<Action>)
    ensures Legal(BOOTED, actions)
    ensures var h := Exec(BOOTED, actions);
            0 in h.procs && 1 in h.procs && 5 in Of(h.procs[0].jobs, 1) && 5 in h.procs[1].evicting
  {
    hide Enabled, Next, Legal, Exec;
    actions := RefusedReacquire();
    SceneEvicts(PINNED);
    Extend(actions, Lease(1, EndEviction(5)));
    actions := actions + [Lease(1, EndEviction(5))];
    SceneLoads();
    Extend(actions, Lease(0, AddJob(1, 5, true)));
    actions := actions + [Lease(0, AddJob(1, 5, true))];
    Extend(actions, Lease(0, DropPin("r", 5)));
    actions := actions + [Lease(0, DropPin("r", 5))];
    SceneEvicts(STRIPPED);
    Extend(actions, Lease(1, BeginEviction(5, true)));
    actions := actions + [Lease(1, BeginEviction(5, true))];
  }

  /** The lookup finds its hit, lets go of the shard, and pins it although an eviction has begun. */
  lemma RefusedReacquire() returns (actions: seq<Action>)
    ensures Legal(BOOTED, actions) && Exec(BOOTED, actions) == Scene(PINNED, true)
  {
    actions := Launched();
    hide Enabled, Next, Legal, Exec;
    SceneLooks();
    Extend(actions, Lease(0, AddPending("r", 5, true)));
    actions := actions + [Lease(0, AddPending("r", 5, true))];
    Extend(actions, Lease(0, DropPending("r", 5)));
    actions := actions + [Lease(0, DropPending("r", 5))];
    SceneEvicts(EMPTY);
    Extend(actions, Lease(1, BeginEviction(5, true)));
    actions := actions + [Lease(1, BeginEviction(5, true))];
    SceneForgets();
    Extend(actions, Lease(0, RePin("r", 5, false)));
    actions := actions + [Lease(0, RePin("r", 5, false))];
  }

  lemma Launched() returns (actions: seq<Action>)
    ensures Legal(BOOTED, actions) && Exec(BOOTED, actions) == Scene(EMPTY, false)
  {
    var first, second, touch := Launch(0), Launch(1), Reap(5, Fd(2, false));
    assert Enabled(BOOTED, first);
    var h1 := Next(BOOTED, first);
    assert Enabled(h1, second);
    var h2 := Next(h1, second);
    assert Enabled(h2, touch);
    var free: Lock<Fd> := Shared({});
    assert free.Unlock(touch.fd) == free;
    assert Next(h2, touch).procs == map[0 := EMPTY, 1 := EMPTY] && Next(h2, touch).locks == map[5 := free];
    assert Next(h2, touch) == Scene(EMPTY, false);
    actions := [first];
    assert [first][1..] == [];
    assert Exec(BOOTED, actions) == Exec(h1, []);
    Extend(actions, second);
    Extend(actions + [second], touch);
    actions := actions + [second] + [touch];
  }
}
