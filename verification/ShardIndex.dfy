/** The shard lease index of one process: dictionaries updated in place by lookup, transfer and
    eviction threads, each method running with the index's mutex held.

    Every method is a sequence of the lock calls and records of `ShardLeases`, listed in its
    ghost result `steps`; what is proved there of all such sequences so holds of the object.
 */
module ShardIndex {
  import opened ShardLeases
  import opened Sums
  import opened Wrappers

  /** A dictionary of shard sets as leases; empty entries lease nothing. */
  ghost function Leases<K>(m: map<K, set<Shard>>): map<K, multiset<Shard>> {
    map k | k in m && m[k] != {} :: multiset(m[k])
  }

  ghost function NonEmpty<K>(m: map<K, multiset<Shard>>): map<K, multiset<Shard>> {
    map k | k in m && m[k] != multiset{} :: m[k]
  }

  function SetOf<K>(m: map<K, set<Shard>>, k: K): set<Shard> {
    if k in m then m[k] else {}
  }

  lemma LeasesSet<K>(m: map<K, set<Shard>>, k: K, shards: set<Shard>)
    ensures Leases(m[k := shards]) == Put(Leases(m), k, multiset(shards))
    ensures Of(Leases(m), k) == multiset(SetOf(m, k))
  {
  }

  lemma SameLeases<K>(m: map<K, set<Shard>>, k: K)
    ensures Leases(m[k := SetOf(m, k)]) == Leases(m)
  {
  }

  lemma LeasesPop<K>(m: map<K, set<Shard>>, k: K)
    requires SetOf(m, k) == {}
    ensures Leases(m - {k}) == Leases(m) && k !in Leases(m)
  {
  }

  lemma NonEmptySet<K>(m: map<K, multiset<Shard>>, k: K, shards: multiset<Shard>)
    ensures NonEmpty(m[k := shards]) == Put(NonEmpty(m), k, shards)
    ensures Of(NonEmpty(m), k) == Of(m, k)
  {
  }

  lemma NonEmptyPop<K>(m: map<K, multiset<Shard>>, k: K)
    requires Of(m, k) == multiset{}
    ensures NonEmpty(m - {k}) == NonEmpty(m) && k !in NonEmpty(m)
  {
  }

  lemma SetAdd(shards: set<Shard>, s: Shard)
    ensures s !in shards ==> multiset(shards + {s}) == multiset(shards) + multiset{s}
    ensures s in shards ==> multiset(shards - {s}) == multiset(shards) - multiset{s}
  {
  }

  lemma SetOfIn<K>(m: map<K, set<Shard>>, k: K)
    requires k in m
    ensures SetOf(m, k) == m[k] && m[k := m[k]] == m
  {
  }

  lemma {:induction false} WithoutNone(reqs: seq<string>, req: string)
    ensures req !in Without(reqs, req)
  {
    if reqs != [] {
      WithoutNone(reqs[1..], req);
    }
  }

  /** The index as it will be once a job's acquired shards are recorded. */
  ghost function Mirror(ix: Index, others: map<int, multiset<Shard>>, job: int, acquired: set<Shard>): Index {
    ix.(jobs := Put(others, job, multiset(acquired)))
  }

  lemma FreshMirror(ix: Index, others: map<int, multiset<Shard>>, job: int)
    requires job !in others && ix.jobs == others
    ensures Mirror(ix, others, job, {}) == ix
  {
    assert others - {job} == others;
  }

  lemma PutTwice(m: map<int, multiset<Shard>>, k: int, v: multiset<Shard>, w: multiset<Shard>)
    ensures Put(Put(m, k, v), k, w) == Put(m, k, w) && Of(Put(m, k, v), k) == v
  {
    assert m - {k} - {k} == m - {k};
  }

  lemma MirrorAdd(ix: Index, others: map<int, multiset<Shard>>, job: int, acquired: set<Shard>, s: Shard)
    requires s !in acquired && s !in ix.evicting
    ensures Can(Mirror(ix, others, job, acquired), AddJob(job, s, true))
    ensures After(Mirror(ix, others, job, acquired), AddJob(job, s, true)) ==
              Mirror(ix.Acquired(s), others, job, acquired + {s})
  {
    SetAdd(acquired, s);
    PutTwice(others, job, multiset(acquired), multiset(acquired) + multiset{s});
    hide Put, Of;
  }

  lemma EvolveMirror(was: Index, steps: seq<Step>, now: Index, others: map<int, multiset<Shard>>, job: int,
                     acquired: set<Shard>, s: Shard)
    requires EvolvedSurely(was, steps, Mirror(now, others, job, acquired)) && s !in acquired && s !in now.evicting
    ensures EvolvedSurely(was, steps + [AddJob(job, s, true)], Mirror(now.Acquired(s), others, job, acquired + {s}))
  {
    hide EvolvedSurely, Can, After, Mirror;
    MirrorAdd(now, others, job, acquired, s);
    EvolveSurely(was, steps, Mirror(now, others, job, acquired), AddJob(job, s, true));
  }

  lemma CountsOne(counts: multiset<Shard>, acquired: set<Shard>, s: Shard)
    requires s !in acquired
    ensures counts + multiset(acquired) + multiset{s} == counts + multiset(acquired + {s})
  {
  }

  lemma MirrorDrop(ix: Index, others: map<int, multiset<Shard>>, job: int, acquired: set<Shard>, s: Shard)
    requires s in acquired
    ensures Can(Mirror(ix, others, job, acquired), DropJob(job, s))
    ensures After(Mirror(ix, others, job, acquired), DropJob(job, s)) ==
              Mirror(ix.Released(s), others, job, acquired - {s})
  {
    SetAdd(acquired, s);
    PutTwice(others, job, multiset(acquired), multiset(acquired) - multiset{s});
    hide Put, Of;
  }

  lemma LeasesWithout(m: map<int, set<Shard>>, k: int)
    ensures k !in Leases(m - {k}) && Leases(m) == Put(Leases(m - {k}), k, multiset(SetOf(m, k)))
  {
    var rest := Leases(m - {k});
    if SetOf(m, k) == {} {
      assert rest - {k} == rest && Leases(m) == rest;
    } else {
      var s :| s in SetOf(m, k);
      assert multiset(m[k])[s] == 1;
      assert Leases(m) == rest[k := multiset(m[k])];
    }
  }

  predicate Older(used: map<Shard, int>, a: Shard, b: Shard) {
    a in used && b in used && (used[a] < used[b] || (used[a] == used[b] && a < b))
  }

  predicate OlderThanAll(used: map<Shard, int>, a: Shard, shards: set<Shard>) {
    forall s :: s in shards && s != a ==> Older(used, a, s)
  }

  lemma OlderIs(used: map<Shard, int>, oldest: Shard, shards: set<Shard>)
    requires OlderThanAll(used, oldest, shards) && oldest in used && shards <= used.Keys
    ensures forall s :: s in shards && s != oldest ==>
              used[oldest] < used[s] || (used[oldest] == used[s] && oldest < s)
  {
  }

  lemma NextOldest(used: map<Shard, int>, oldest: Shard, seen: set<Shard>, s: Shard)
    requires OlderThanAll(used, oldest, seen) && oldest in used && s in used && s != oldest
    ensures OlderThanAll(used, if Older(used, s, oldest) then s else oldest, seen + {s})
  {
  }

  lemma CountsBack(counts: multiset<Shard>, acquired: set<Shard>)
    ensures counts + multiset(acquired) - multiset(acquired) == counts
  {
  }

  lemma ReleasedOne(counts: multiset<Shard>, shards: set<Shard>, acquired: set<Shard>, s: Shard)
    requires s in acquired && acquired <= shards
    ensures counts - multiset(shards - acquired) - multiset{s} == counts - multiset(shards - (acquired - {s}))
  {
    assert shards - (acquired - {s}) == (shards - acquired) + {s};
    SetAdd(shards - acquired, s);
    MinusMore(counts, multiset(shards - acquired), multiset{s});
  }

  ghost predicate Evictable(ix: Index, shards: set<Shard>) {
    forall s :: s in shards ==> !ix.Leased(s) && s !in ix.evicting
  }

  /** Each of the shards was refused an eviction lock in one of the steps. */
  predicate AllRefused(shards: set<Shard>, steps: seq<Step>) {
    forall s :: s in shards ==> BeginEviction(s, false) in steps
  }

  lemma NoneRefused()
    ensures AllRefused({}, [])
  {
  }

  lemma OneMoreRefused(shards: set<Shard>, steps: seq<Step>, s: Shard, step: Step)
    requires AllRefused(shards, steps)
    ensures AllRefused(shards, steps + [step])
    ensures step == BeginEviction(s, false) ==> AllRefused(shards + {s}, steps + [step])
  {
  }

  lemma InSetOf<K>(m: map<K, set<Shard>>, k: K, s: Shard)
    ensures s in m[k := SetOf(m, k)][k] <==> s in SetOf(m, k)
  {
  }

  lemma SetTwice<K, V>(m: map<K, V>, k: K, v: V, w: V)
    ensures m[k := v][k := w] == m[k := w]
  {
  }

  lemma SetPlus(a: set<Shard>, b: set<Shard>, c: set<Shard>)
    ensures a + b + c == a + (b + c)
  {
  }

  lemma MinusMore(a: multiset<Shard>, b: multiset<Shard>, c: multiset<Shard>)
    ensures a - b - c == a - (b + c)
  {
  }

  /** `steps`, all allowed in their turn, lead from one index to the other. */
  ghost predicate Evolved(was: Index, steps: seq<Step>, now: Index) {
    Plays(was, steps) && Replay(was, steps) == now
  }

  lemma Unevolved(ix: Index)
    ensures Evolved(ix, [], ix)
  {
  }

  lemma EvolveStep(was: Index, steps: seq<Step>, now: Index, step: Step)
    requires Evolved(was, steps, now) && Can(now, step)
    ensures Evolved(was, steps + [step], After(now, step))
  {
    hide Can, After;
    PlaySnoc(was, steps, step);
  }

  lemma EvolveOn(was: Index, before: seq<Step>, mid: Index, steps: seq<Step>, now: Index)
    requires Evolved(was, before, mid) && Evolved(mid, steps, now)
    ensures Evolved(was, before + steps, now)
  {
    hide Can, After;
    PlayConcat(was, before, steps);
  }

  predicate NeverForgets(steps: seq<Step>) {
    forall i :: 0 <= i < |steps| ==> !Forgotten(steps[i])
  }

  /** A development in which no reacquire is refused. */
  ghost predicate EvolvedSurely(was: Index, steps: seq<Step>, now: Index) {
    Evolved(was, steps, now) && NeverForgets(steps)
  }

  lemma SurelyEvolved(was: Index, steps: seq<Step>, now: Index)
    requires EvolvedSurely(was, steps, now)
    ensures Evolved(was, steps, now) && NeverForgets(steps)
  {
  }

  lemma UnevolvedSurely(ix: Index)
    ensures EvolvedSurely(ix, [], ix)
  {
  }

  lemma EvolveSurely(was: Index, steps: seq<Step>, now: Index, step: Step)
    requires EvolvedSurely(was, steps, now) && Can(now, step) && !Forgotten(step)
    ensures EvolvedSurely(was, steps + [step], After(now, step))
  {
    hide Can, After, Evolved;
    EvolveStep(was, steps, now, step);
  }

  lemma EvolveSurelyOn(was: Index, before: seq<Step>, mid: Index, steps: seq<Step>, now: Index)
    requires EvolvedSurely(was, before, mid) && EvolvedSurely(mid, steps, now)
    ensures EvolvedSurely(was, before + steps, now)
  {
    hide Can, After, Evolved;
    EvolveOn(was, before, mid, steps, now);
  }

  lemma {:induction false} EvolvedExact(was: Index, steps: seq<Step>, now: Index)
    requires Evolved(was, steps, now) && Exact(was) && NeverForgets(steps)
    ensures Exact(now)
    decreases |steps|
  {
    hide Can, After, Exact;
    if steps != [] {
      StaysExactIff(was, steps[0]);
      EvolvedExact(After(was, steps[0]), steps[1..], now);
    }
  }

  lemma EvolvedLeaksNothing(was: Index, steps: seq<Step>, now: Index)
    requires Evolved(was, steps, now) && NoLeak(was)
    ensures NoLeak(now)
  {
    hide Can, After, NoLeak;
    RunLeaksNothing(was, steps);
  }

  /** The shards marked, with repetition. */
  function Marked(shards: seq<Shard>, marks: seq<bool>): multiset<Shard>
    requires |shards| == |marks|
  {
    if shards == [] then multiset{}
    else
      var last := |shards| - 1;
      Marked(shards[..last], marks[..last]) + if marks[last] then multiset{shards[last]} else multiset{}
  }

  lemma {:induction false} NoneMarked(shards: seq<Shard>, marks: seq<bool>)
    requires |shards| == |marks| && forall i :: 0 <= i < |marks| ==> !marks[i]
    ensures Marked(shards, marks) == multiset{}
  {
    if shards != [] {
      NoneMarked(shards[..|shards| - 1], marks[..|shards| - 1]);
    }
  }

  lemma MarkedSnoc(shards: seq<Shard>, marks: seq<bool>, s: Shard, mark: bool)
    requires |shards| == |marks|
    ensures Marked(shards + [s], marks + [mark]) == Marked(shards, marks) + if mark then multiset{s} else multiset{}
  {
    assert (shards + [s])[..|shards|] == shards && (marks + [mark])[..|shards|] == marks;
  }

  function MarkedSet(shards: seq<Shard>, marks: seq<bool>): set<Shard>
    requires |shards| == |marks|
  {
    set i | 0 <= i < |shards| && marks[i] :: shards[i]
  }

  /** The shard times after a use of some shards. */
  function Touched(used: map<Shard, int>, shards: set<Shard>, now: int): (later: map<Shard, int>)
    ensures forall s :: s in later <==> s in used || s in shards
    ensures forall s :: s in later ==> later[s] == if s in shards then now else used[s]
  {
    used + map s | s in shards :: now
  }

  lemma TouchedNone(used: map<Shard, int>, now: int)
    ensures Touched(used, {}, now) == used
  {
  }

  lemma TouchedMore(used: map<Shard, int>, shards: set<Shard>, now: int, s: Shard)
    ensures Touched(used, shards + {s}, now) == Touched(used, shards, now)[s := now]
    ensures Touched(used, shards + {}, now) == Touched(used, shards, now)
  {
    assert shards + {} == shards;
  }

  lemma NoneMarkedSet()
    ensures MarkedSet([], []) == {}
  {
  }

  lemma MarkedSetSnoc(shards: seq<Shard>, marks: seq<bool>, s: Shard, mark: bool)
    requires |shards| == |marks|
    ensures MarkedSet(shards + [s], marks + [mark]) == MarkedSet(shards, marks) + if mark then {s} else {}
  {
    var more, moreMarks := shards + [s], marks + [mark];
    assert mark ==> moreMarks[|shards|] && more[|shards|] == s;
    forall x | x in MarkedSet(shards, marks) ensures x in MarkedSet(more, moreMarks) {
      var i :| 0 <= i < |shards| && marks[i] && shards[i] == x;
      assert moreMarks[i] && more[i] == x;
    }
  }

  /** A shard is leased for a lookup if that can be had whatever the others do, and not if it cannot. */
  ghost predicate Checked(shards: seq<Shard>, marks: seq<bool>, surely: iset<Shard>, hardly: iset<Shard>) {
    && |shards| == |marks|
    && (forall i :: 0 <= i < |shards| && marks[i] ==> shards[i] !in hardly)
    && (forall i :: 0 <= i < |shards| && shards[i] in surely ==> marks[i])
  }

  lemma NoneChecked(surely: iset<Shard>, hardly: iset<Shard>)
    ensures Checked([], [], surely, hardly)
  {
  }

  lemma CheckedSnoc(shards: seq<Shard>, marks: seq<bool>, s: Shard, mark: bool, surely: iset<Shard>,
                    hardly: iset<Shard>)
    requires Checked(shards, marks, surely, hardly)
    requires (mark ==> s !in hardly) && (s in surely ==> mark)
    ensures Checked(shards + [s], marks + [mark], surely, hardly)
  {
  }

  lemma {:induction false} SomeoneHolds<K>(m: map<K, multiset<Shard>>, s: Shard) returns (k: K)
    requires s in Total(m)
    ensures k in m && s in m[k]
    decreases |m|
  {
    k :| k in m && Total(m) == m[k] + Total(m - {k});
    if s !in m[k] {
      Smaller(m, k);
      k := SomeoneHolds(m - {k}, s);
    }
  }

  /** The shards no eviction may take are those of the index's three dictionaries. */
  lemma LeasedIff(ix: Index, s: Shard)
    ensures ix.Leased(s) <==>
              || (exists req :: req in ix.pins && s in ix.pins[req])
              || (exists req :: req in ix.pending && s in ix.pending[req])
              || (exists job :: job in ix.jobs && s in ix.jobs[job])
  {
    forall req | req in ix.pins && s in ix.pins[req] ensures s in Total(ix.pins) {
      TotalHas(ix.pins, req);
    }
    forall req | req in ix.pending && s in ix.pending[req] ensures s in Total(ix.pending) {
      TotalHas(ix.pending, req);
    }
    forall job | job in ix.jobs && s in ix.jobs[job] ensures s in Total(ix.jobs) {
      TotalHas(ix.jobs, job);
    }
    if s in Total(ix.pins) {
      var req := SomeoneHolds(ix.pins, s);
    }
    if s in Total(ix.pending) {
      var req := SomeoneHolds(ix.pending, s);
    }
    if s in Total(ix.jobs) {
      var job := SomeoneHolds(ix.jobs, s);
    }
  }

  /** What the other processes hold of a shard's lock; one that they do not hold has no entry. */
  datatype Hold = Readers | Evictor

  type Others = map<Shard, Hold>

  /** The others' holds let a lock be granted. */
  predicate Grants(others: Others, s: Shard, exclusive: bool) {
    s !in others || (!exclusive && others[s].Readers?)
  }

  /** They let it be granted at every moment to come. */
  ghost predicate Always(states: seq<Others>, s: Shard, exclusive: bool) {
    forall others :: others in states ==> Grants(others, s, exclusive)
  }

  /** They do so at none. */
  ghost predicate Never(states: seq<Others>, s: Shard, exclusive: bool) {
    states != [] && forall others :: others in states ==> !Grants(others, s, exclusive)
  }

  /** Less is to come. */
  ghost predicate Later(was: seq<Others>, now: seq<Others>) {
    (now == [] ==> was == []) && forall others :: others in now ==> others in was
  }

  /** The kernel as the lock calls of one process meet it: what the others hold at each of the calls to come;
      the last state lasts. */
  class Kernel {
    var states: seq<Others>

    function Now(): Others
      reads this
    {
      if states == [] then map[] else states[0]
    }

    /** `own` says that the process itself has a descriptor that is in the way. */
    method TryLock(s: Shard, exclusive: bool, own: bool) returns (granted: bool)
      modifies this
      ensures granted == (!own && Grants(old(Now()), s, exclusive))
      ensures Later(old(states), states)
    {
      granted := !own && Grants(Now(), s, exclusive);
      states := if |states| > 1 then states[1..] else states;
    }
  }

  lemma LaterAll(states: seq<Others>)
    ensures Later(states, states)
  {
  }

  lemma LaterOn(a: seq<Others>, b: seq<Others>, c: seq<Others>)
    requires Later(a, b) && Later(b, c)
    ensures Later(a, c)
  {
  }

  lemma LaterGrants(was: seq<Others>, now: seq<Others>, s: Shard, exclusive: bool)
    requires Later(was, now)
    ensures Always(was, s, exclusive) ==> Always(now, s, exclusive)
    ensures Never(was, s, exclusive) ==> Never(now, s, exclusive)
  {
  }

  lemma NowGrants(kernel: Kernel, s: Shard, exclusive: bool)
    ensures Always(kernel.states, s, exclusive) ==> Grants(kernel.Now(), s, exclusive)
    ensures Never(kernel.states, s, exclusive) ==> !Grants(kernel.Now(), s, exclusive)
  {
    assert kernel.states != [] ==> kernel.states[0] in kernel.states;
  }

  /** The shards found can be leased at every moment to come. */
  ghost predicate HitsShare(shards: seq<Shard>, hits: seq<bool>, evicting: set<Shard>, states: seq<Others>)
    requires |shards| == |hits|
  {
    forall i :: 0 <= i < |shards| && hits[i] ==> shards[i] !in evicting && Always(states, shards[i], false)
  }

  lemma NothingForgotten()
    ensures NeverForgets([])
  {
  }

  lemma NeitherForgets(a: seq<Step>, b: seq<Step>)
    ensures NeverForgets(a) && NeverForgets(b) ==> NeverForgets(a + b)
  {
  }

  /** When nothing changes any more, one of the two it is. */
  lemma AtRest(others: Others, s: Shard, exclusive: bool)
    ensures Always([others], s, exclusive) <==> Grants(others, s, exclusive)
    ensures Never([others], s, exclusive) <==> !Grants(others, s, exclusive)
  {
    assert others in [others];
  }

  class ShardLeaseIndex {
    const kernel: Kernel
    /** Reference counts of the shards held; a shard counted zero has no entry. */
    var sharedLockCounts: multiset<Shard>
    var sharedLockFds: set<Shard>
    var requestShards: map<string, set<Shard>>
    var pendingLookupShards: map<string, multiset<Shard>>
    var jobShards: map<int, set<Shard>>
    var evicting: set<Shard>
    var closedRequests: seq<string>
    var lookupCancelled: set<string>
    var lastUsed: map<Shard, int>

    ghost function View(): Index
      reads this
    {
      Index(sharedLockCounts, sharedLockFds, Leases(requestShards), NonEmpty(pendingLookupShards),
            Leases(jobShards), evicting, closedRequests, lookupCancelled)
    }

    constructor (kernel: Kernel, lastUsed: map<Shard, int>)
      ensures View() == EMPTY && this.kernel == kernel && this.lastUsed == lastUsed
    {
      this.kernel, this.lastUsed := kernel, lastUsed;
      sharedLockCounts, sharedLockFds, requestShards := multiset{}, {}, map[];
      pendingLookupShards, jobShards, evicting := map[], map[], {};
      closedRequests, lookupCancelled := [], {};
    }

    /** A shared lease of the shard can be had now. */
    ghost predicate Shareable(s: Shard)
      reads this`sharedLockCounts, this`evicting, kernel
    {
      s in sharedLockCounts || (s !in evicting && Grants(kernel.Now(), s, false))
    }

    /** It can be had whatever the others do meanwhile. */
    ghost predicate Surely(s: Shard)
      reads this`sharedLockCounts, this`evicting, kernel
    {
      s !in evicting && (s in sharedLockCounts || Always(kernel.states, s, false))
    }

    /** It cannot, whatever they do. */
    ghost predicate Hardly(s: Shard)
      reads this`sharedLockCounts, this`evicting, kernel
    {
      s in evicting || (s !in sharedLockCounts && Never(kernel.states, s, false))
    }

    /** Count one more holder; only the first takes the shard's lock. */
    method AcquireShared(s: Shard) returns (granted: bool)
      modifies this`sharedLockCounts, this`sharedLockFds, kernel
      ensures granted <==> old(Shareable(s))
      ensures Later(old(kernel.states), kernel.states)
      ensures View() == if granted then old(View()).Acquired(s) else old(View())
    {
      if s in sharedLockCounts {
        granted := true;
      } else {
        granted := kernel.TryLock(s, false, s in evicting);
        if !granted {
          return;
        }
        sharedLockFds := sharedLockFds + {s};
      }
      sharedLockCounts := sharedLockCounts + multiset{s};
    }

    /** Count one holder less; the last one closes the shard's descriptor. */
    method ReleaseShared(s: Shard)
      modifies this`sharedLockCounts, this`sharedLockFds
      ensures View() == old(View()).Released(s)
    {
      if sharedLockCounts[s] <= 1 {
        sharedLockFds := sharedLockFds - {s};
      }
      sharedLockCounts := sharedLockCounts - multiset{s};
    }

    predicate Fenced(req: string)
      reads this`closedRequests, this`lookupCancelled
    {
      req in closedRequests || req in lookupCancelled
    }

    method RecordPending(req: string, s: Shard) returns (granted: bool)
      requires !Fenced(req)
      modifies this`sharedLockCounts, this`sharedLockFds, this`pendingLookupShards, kernel
      ensures Can(old(View()), AddPending(req, s, granted))
      ensures View() == After(old(View()), AddPending(req, s, granted))
      ensures granted <==> old(Shareable(s))
      ensures Later(old(kernel.states), kernel.states)
      ensures sharedLockCounts == old(sharedLockCounts) + if granted then multiset{s} else multiset{}
      ensures pendingLookupShards == if granted then
                old(pendingLookupShards)[req := Of(old(pendingLookupShards), req) + multiset{s}]
              else old(pendingLookupShards)
    {
      granted := AcquireShared(s);
      if granted {
        NonEmptySet(pendingLookupShards, req, Of(pendingLookupShards, req) + multiset{s});
        pendingLookupShards := pendingLookupShards[req := Of(pendingLookupShards, req) + multiset{s}];
      }
    }

    method ForgetPending(req: string, s: Shard)
      requires s in Of(pendingLookupShards, req)
      modifies this`sharedLockCounts, this`sharedLockFds, this`pendingLookupShards
      ensures Can(old(View()), ShardLeases.Step.DropPending(req, s))
      ensures View() == After(old(View()), ShardLeases.Step.DropPending(req, s))
      ensures pendingLookupShards == old(pendingLookupShards)[req := Of(old(pendingLookupShards), req) - multiset{s}]
    {
      ReleaseShared(s);
      NonEmptySet(pendingLookupShards, req, Of(pendingLookupShards, req) - multiset{s});
      pendingLookupShards := pendingLookupShards[req := Of(pendingLookupShards, req) - multiset{s}];
    }

    /** Protect a shard while an existence check for the request is queued; a refused lock is no error. */
    method BeginLookup(req: string, s: Shard) returns (ghost leased: bool, ghost steps: seq<Step>)
      modifies this`sharedLockCounts, this`sharedLockFds, this`pendingLookupShards, kernel
      ensures EvolvedSurely(old(View()), steps, View())
      ensures Fenced(req) ==> !leased && View() == old(View())
      ensures leased <==> !Fenced(req) && old(Shareable(s))
      ensures Of(pendingLookupShards, req) ==
                old(Of(pendingLookupShards, req)) + if leased then multiset{s} else multiset{}
      ensures leased ==> s in sharedLockCounts
    {
      hide Can, After, EvolvedSurely;
      UnevolvedSurely(View());
      steps, leased := [], false;
      if Fenced(req) {
        return;
      }
      var granted := RecordPending(req, s);
      EvolveSurely(old(View()), [], old(View()), AddPending(req, s, granted));
      steps, leased := [] + [AddPending(req, s, granted)], granted;
    }

    /** Lease one shard for a lookup, unless it is being evicted. */
    method LeaseForLookup(req: string, s: Shard) returns (granted: bool, ghost steps: seq<Step>)
      requires !Fenced(req)
      modifies this`sharedLockCounts, this`sharedLockFds, this`pendingLookupShards, kernel
      ensures EvolvedSurely(old(View()), steps, View())
      ensures sharedLockCounts == old(sharedLockCounts) + if granted then multiset{s} else multiset{}
      ensures Of(pendingLookupShards, req) ==
                old(Of(pendingLookupShards, req)) + if granted then multiset{s} else multiset{}
      ensures granted <==> s !in evicting && old(Shareable(s))
      ensures (old(Surely(s)) ==> granted) && (old(Hardly(s)) ==> !granted)
      ensures forall x :: (old(Surely(x)) ==> Surely(x)) && (old(Hardly(x)) ==> Hardly(x))
    {
      hide Can, After, EvolvedSurely, Always, Never;
      NowGrants(kernel, s, false);
      UnevolvedSurely(View());
      steps, granted := [], false;
      if s !in evicting {
        granted := RecordPending(req, s);
        EvolveSurely(old(View()), [], old(View()), AddPending(req, s, granted));
        steps := [] + [AddPending(req, s, granted)];
        forall x ensures (old(Surely(x)) ==> Surely(x)) && (old(Hardly(x)) ==> Hardly(x)) {
          LaterGrants(old(kernel.states), kernel.states, x, false);
        }
      }
    }

    /** Check the fence and lease the shards of a lookup; the first half of a pinning lookup,
        up to the point where the mutex is let go for the existence check. */
    method LookupBegin(req: string, shards: seq<Shard>)
        returns (admitted: bool, eligible: seq<bool>, ghost steps: seq<Step>)
      modifies this`sharedLockCounts, this`sharedLockFds, this`pendingLookupShards, kernel
      ensures EvolvedSurely(old(View()), steps, View())
      ensures admitted == !Fenced(req) && |eligible| == |shards|
      ensures !admitted ==> View() == old(View()) && forall i :: 0 <= i < |shards| ==> !eligible[i]
      ensures Of(pendingLookupShards, req) == old(Of(pendingLookupShards, req)) + Marked(shards, eligible)
      ensures admitted ==> Checked(shards, eligible, iset s | old(Surely(s)), iset s | old(Hardly(s)))
    {
      hide EvolvedSurely, Checked, Marked, Of, Surely, Hardly, Shareable;
      ghost var surely, hardly := iset s | Surely(s), iset s | Hardly(s);
      UnevolvedSurely(View());
      steps, eligible, admitted := [], [], !Fenced(req);
      if !admitted {
        eligible := seq(|shards|, _ => false);
        NoneMarked(shards, eligible);
        return;
      }
      NoneChecked(surely, hardly);
      NoneMarked([], []);
      var i := 0;
      while i < |shards|
        invariant 0 <= i == |eligible| <= |shards|
        invariant EvolvedSurely(old(View()), steps, View())
        invariant forall x :: (x in surely ==> Surely(x)) && (x in hardly ==> Hardly(x))
        invariant Of(pendingLookupShards, req) == old(Of(pendingLookupShards, req)) + Marked(shards[..i], eligible)
        invariant Checked(shards[..i], eligible, surely, hardly)
      {
        ghost var now := View();
        var granted, more := LeaseForLookup(req, shards[i]);
        EvolveSurelyOn(old(View()), steps, now, more, View());
        steps := steps + more;
        assert shards[..i] + [shards[i]] == shards[..i + 1];
        MarkedSnoc(shards[..i], eligible, shards[i], granted);
        CheckedSnoc(shards[..i], eligible, shards[i], granted, surely, hardly);
        eligible := eligible + [granted];
        i := i + 1;
      }
      assert shards[..i] == shards;
      NormalizePending(req);
    }

    /** An empty entry for the request, if it has none. */
    method NormalizePending(req: string)
      modifies this`pendingLookupShards
      ensures View() == old(View()) && Of(pendingLookupShards, req) == old(Of(pendingLookupShards, req))
    {
      if req !in pendingLookupShards {
        NonEmptySet(pendingLookupShards, req, multiset{});
        NonEmptyPop(pendingLookupShards, req);
        pendingLookupShards := pendingLookupShards[req := multiset{}];
      }
    }

    method ReleaseOnePending(req: string, s: Shard, mark: bool) returns (ghost steps: seq<Step>)
      modifies this`sharedLockCounts, this`sharedLockFds, this`pendingLookupShards
      ensures EvolvedSurely(old(View()), steps, View())
      ensures Of(pendingLookupShards, req) ==
                old(Of(pendingLookupShards, req)) - if mark then multiset{s} else multiset{}
    {
      hide EvolvedSurely, Can, After;
      UnevolvedSurely(View());
      steps := [];
      if mark && s in Of(pendingLookupShards, req) {
        ForgetPending(req, s);
        EvolveSurely(old(View()), [], old(View()), ShardLeases.Step.DropPending(req, s));
        steps := [] + [ShardLeases.Step.DropPending(req, s)];
      }
    }

    /** Drop the request's pending leases of the given shards, as far as it still has them. */
    method ReleasePending(req: string, shards: seq<Shard>, marks: seq<bool>) returns (ghost steps: seq<Step>)
      requires |marks| == |shards|
      modifies this`sharedLockCounts, this`sharedLockFds, this`pendingLookupShards
      ensures EvolvedSurely(old(View()), steps, View())
      ensures Of(pendingLookupShards, req) == old(Of(pendingLookupShards, req)) - Marked(shards, marks)
    {
      hide EvolvedSurely, Marked, Of;
      UnevolvedSurely(View());
      steps := [];
      NoneMarked([], []);
      assert shards[..0] == [] && marks[..0] == [];
      for i := 0 to |shards|
        invariant EvolvedSurely(old(View()), steps, View())
        invariant Of(pendingLookupShards, req) == old(Of(pendingLookupShards, req)) - Marked(shards[..i], marks[..i])
      {
        assert shards[..i] + [shards[i]] == shards[..i + 1] && marks[..i] + [marks[i]] == marks[..i + 1];
        MarkedSnoc(shards[..i], marks[..i], shards[i], marks[i]);
        ghost var now := View();
        ghost var more := ReleaseOnePending(req, shards[i], marks[i]);
        EvolveSurelyOn(old(View()), steps, now, more, View());
        steps := steps + more;
        MinusMore(old(Of(pendingLookupShards, req)), Marked(shards[..i], marks[..i]),
                  if marks[i] then multiset{shards[i]} else multiset{});
      }
      assert shards[..|shards|] == shards && marks[..|shards|] == marks;
      DropEmptyPending(req);
    }

    method DropEmptyPending(req: string)
      modifies this`pendingLookupShards
      ensures View() == old(View()) && Of(pendingLookupShards, req) == old(Of(pendingLookupShards, req))
      ensures Of(pendingLookupShards, req) == multiset{} ==> req !in pendingLookupShards
    {
      if req in pendingLookupShards && pendingLookupShards[req] == multiset{} {
        NonEmptyPop(pendingLookupShards, req);
        pendingLookupShards := pendingLookupShards - {req};
      }
    }

    /** Pin a shard that an existence check found; a refused lock is ignored. */
    method PinHit(req: string, s: Shard) returns (ghost step: Step)
      requires !Fenced(req) && s !in SetOf(requestShards, req)
      modifies this`sharedLockCounts, this`sharedLockFds, this`requestShards, kernel
      ensures Can(old(View()), step) && View() == After(old(View()), step)
      ensures step == RePin(req, s, old(Shareable(s))) && Later(old(kernel.states), kernel.states)
      ensures requestShards == old(requestShards)[req := old(SetOf(requestShards, req)) + {s}]
    {
      LeasesSet(requestShards, req, SetOf(requestShards, req) + {s});
      SetAdd(SetOf(requestShards, req), s);
      var granted := AcquireShared(s);
      step := RePin(req, s, granted);
      requestShards := requestShards[req := SetOf(requestShards, req) + {s}];
    }

    /** Pin a shard whose cached lookup was a hit, unless its lock is refused. */
    method PinCached(req: string, s: Shard) returns (granted: bool)
      requires !Fenced(req) && s !in SetOf(requestShards, req) && s !in evicting
      modifies this`sharedLockCounts, this`sharedLockFds, this`requestShards, kernel
      ensures Can(old(View()), AddPin(req, s, granted)) && View() == After(old(View()), AddPin(req, s, granted))
      ensures requestShards ==
                if granted then old(requestShards)[req := old(SetOf(requestShards, req)) + {s}] else old(requestShards)
      ensures granted <==> old(Shareable(s))
    {
      LeasesSet(requestShards, req, SetOf(requestShards, req) + {s});
      SetAdd(SetOf(requestShards, req), s);
      granted := AcquireShared(s);
      if granted {
        requestShards := requestShards[req := SetOf(requestShards, req) + {s}];
      }
    }

    method PinOne(req: string, s: Shard, hit: bool, now: int) returns (ghost steps: seq<Step>)
      requires !Fenced(req) && req in requestShards
      modifies this`sharedLockCounts, this`sharedLockFds, this`requestShards, this`lastUsed, kernel
      ensures Evolved(old(View()), steps, View())
      ensures requestShards ==
                old(requestShards)[req := old(SetOf(requestShards, req)) + if hit then {s} else {}]
      ensures lastUsed == if hit then old(lastUsed)[s := now] else old(lastUsed)
      ensures Later(old(kernel.states), kernel.states)
      ensures !hit || (s !in evicting && old(Always(kernel.states, s, false))) ==> NeverForgets(steps)
    {
      NowGrants(kernel, s, false);
      hide Evolved, Can, After;
      Unevolved(View());
      steps := [];
      LaterAll(kernel.states);
      SetOfIn(requestShards, req);
      assert s in requestShards[req] ==> requestShards[req] + {s} == requestShards[req];
      assert requestShards[req] + {} == requestShards[req];
      if hit {
        if s !in requestShards[req] {
          ghost var step := PinHit(req, s);
          EvolveStep(old(View()), [], old(View()), step);
          steps := [] + [step];
        }
        lastUsed := lastUsed[s := now];
      }
    }

    method PinAll(req: string, shards: seq<Shard>, hits: seq<bool>, now: int) returns (ghost steps: seq<Step>)
      requires |shards| == |hits| && !Fenced(req) && req in requestShards
      modifies this`sharedLockCounts, this`sharedLockFds, this`requestShards, this`lastUsed, kernel
      ensures Evolved(old(View()), steps, View())
      ensures requestShards == old(requestShards)[req := old(SetOf(requestShards, req)) + MarkedSet(shards, hits)]
      ensures lastUsed == Touched(old(lastUsed), MarkedSet(shards, hits), now)
      ensures HitsShare(shards, hits, evicting, old(kernel.states)) ==> NeverForgets(steps)
    {
      hide Evolved, MarkedSet, SetOf, Touched, Later, Always, NeverForgets;
      LaterAll(kernel.states);
      NothingForgotten();
      TouchedNone(lastUsed, now);
      Unevolved(View());
      steps := [];
      assert shards[..0] == [] && hits[..0] == [];
      NoneMarkedSet();
      ghost var first := SetOf(requestShards, req);
      SetOfIn(requestShards, req);
      assert first + {} == first;
      for i := 0 to |shards|
        invariant Evolved(old(View()), steps, View())
        invariant requestShards == old(requestShards)[req := first + MarkedSet(shards[..i], hits[..i])]
        invariant lastUsed == Touched(old(lastUsed), MarkedSet(shards[..i], hits[..i]), now)
        invariant Later(old(kernel.states), kernel.states)
        invariant HitsShare(shards, hits, evicting, old(kernel.states)) ==> NeverForgets(steps)
      {
        ghost var states := kernel.states;
        LaterGrants(old(kernel.states), states, shards[i], false);
        assert shards[..i] + [shards[i]] == shards[..i + 1] && hits[..i] + [hits[i]] == hits[..i + 1];
        MarkedSetSnoc(shards[..i], hits[..i], shards[i], hits[i]);
        TouchedMore(old(lastUsed), MarkedSet(shards[..i], hits[..i]), now, shards[i]);
        SetOfIn(requestShards, req);
        SetPlus(first, MarkedSet(shards[..i], hits[..i]), if hits[i] then {shards[i]} else {});
        ghost var before := View();
        ghost var more := PinOne(req, shards[i], hits[i], now);
        LaterOn(old(kernel.states), states, kernel.states);
        EvolveOn(old(View()), steps, before, more, View());
        NeitherForgets(steps, more);
        steps := steps + more;
      }
      assert shards[..|shards|] == shards && hits[..|shards|] == hits;
    }

    /** Pin the hits of a request, which has an entry from then on. */
    method PinHits(req: string, shards: seq<Shard>, hits: seq<bool>, now: int) returns (ghost steps: seq<Step>)
      requires |shards| == |hits| && !Fenced(req)
      modifies this`sharedLockCounts, this`sharedLockFds, this`requestShards, this`lastUsed, kernel
      ensures Evolved(old(View()), steps, View())
      ensures requestShards == old(requestShards)[req := old(SetOf(requestShards, req)) + MarkedSet(shards, hits)]
      ensures lastUsed == Touched(old(lastUsed), MarkedSet(shards, hits), now)
      ensures HitsShare(shards, hits, evicting, old(kernel.states)) ==> NeverForgets(steps)
    {
      hide Evolved, Marked, MarkedSet, Of, Touched, HitsShare, NeverForgets;
      SameLeases(requestShards, req);
      requestShards := requestShards[req := SetOf(requestShards, req)];
      steps := PinAll(req, shards, hits, now);
    }

    /** The second half of a pinning lookup: let go of the pending leases, then pin the hits unless
        the request has been closed or cancelled meanwhile. */
    method LookupEnd(req: string, shards: seq<Shard>, eligible: seq<bool>, hits: seq<bool>, now: int)
        returns (results: seq<bool>, ghost steps: seq<Step>)
      requires |shards| == |eligible| == |hits|
      modifies this`sharedLockCounts, this`sharedLockFds, this`pendingLookupShards, this`requestShards, this`lastUsed,
          kernel
      ensures Evolved(old(View()), steps, View())
      ensures Fenced(req) ==> results == seq(|shards|, _ => false) && requestShards == old(requestShards)
      ensures !Fenced(req) ==> results == hits
      ensures !Fenced(req) ==>
                requestShards == old(requestShards)[req := old(SetOf(requestShards, req)) + MarkedSet(shards, hits)]
      ensures Of(pendingLookupShards, req) == old(Of(pendingLookupShards, req)) - Marked(shards, eligible)
      ensures lastUsed == if Fenced(req) then old(lastUsed) else Touched(old(lastUsed), MarkedSet(shards, hits), now)
      ensures HitsShare(shards, hits, evicting, old(kernel.states)) ==> NeverForgets(steps)
    {
      hide EvolvedSurely, Evolved, Marked, MarkedSet, Of, Touched, HitsShare, NeverForgets;
      steps := ReleasePending(req, shards, eligible);
      SurelyEvolved(old(View()), steps, View());
      if Fenced(req) {
        results := seq(|shards|, _ => false);
        return;
      }
      ghost var mid := View();
      ghost var more := PinHits(req, shards, hits, now);
      EvolveOn(old(View()), steps, mid, more, View());
      NeitherForgets(steps, more);
      steps := steps + more;
      results := hits;
    }

    /** Convert a hit into a request lease, before the pending lease is dropped. */
    method PinIfHit(req: string, s: Shard, hit: bool) returns (valid: bool, ghost steps: seq<Step>)
      requires req in requestShards
      modifies this`sharedLockCounts, this`sharedLockFds, this`requestShards, kernel
      ensures EvolvedSurely(old(View()), steps, View())
      ensures valid <==> hit && !Fenced(req) && s !in evicting && old(s in requestShards[req] || Shareable(s))
      ensures requestShards == old(requestShards)[req := old(requestShards[req]) + if valid then {s} else {}]
    {
      hide EvolvedSurely, Can, After;
      UnevolvedSurely(View());
      SetOfIn(requestShards, req);
      steps, valid := [], hit && !Fenced(req) && s !in evicting;
      assert s in requestShards[req] ==> requestShards[req] + {s} == requestShards[req];
      assert requestShards[req] + {} == requestShards[req];
      if valid && s !in requestShards[req] {
        valid := PinCached(req, s);
        EvolveSurely(old(View()), [], old(View()), AddPin(req, s, valid));
        steps := [] + [AddPin(req, s, valid)];
      }
    }

    /** The leases of a resolved lookup: the request lease is taken before the pending one goes. */
    method ResolveLease(req: string, s: Shard, hit: bool) returns (valid: bool, ghost steps: seq<Step>)
      modifies this`sharedLockCounts, this`sharedLockFds, this`pendingLookupShards, this`requestShards, kernel
      ensures EvolvedSurely(old(View()), steps, View())
      ensures valid <==>
                hit && !Fenced(req) && s !in evicting && old(s in SetOf(requestShards, req) || Shareable(s))
      ensures requestShards == old(requestShards)[req := old(SetOf(requestShards, req)) + if valid then {s} else {}]
      ensures Of(pendingLookupShards, req) == old(Of(pendingLookupShards, req)) - multiset{s}
    {
      hide EvolvedSurely, Of, Leases, NonEmpty, SetOf;
      InSetOf(requestShards, req, s);
      SameLeases(requestShards, req);
      requestShards := requestShards[req := SetOf(requestShards, req)];
      ghost var was := View();
      valid, steps := PinIfHit(req, s, hit);
      SetTwice(old(requestShards), req, old(SetOf(requestShards, req)), requestShards[req]);
      ghost var mid := View();
      ghost var more := ReleaseOnePending(req, s, true);
      EvolveSurelyOn(was, steps, mid, more, View());
      steps := steps + more;
      DropEmptyPending(req);
    }

    /** Resolve, and on a hit lease, a lookup whose result another request's lookup cached. */
    method ResolveCachedLookup(req: string, s: Shard, hit: bool, now: int) returns (valid: bool, ghost steps: seq<Step>)
      modifies this`sharedLockCounts, this`sharedLockFds, this`pendingLookupShards, this`requestShards, this`lastUsed,
          kernel
      ensures EvolvedSurely(old(View()), steps, View())
      ensures valid <==>
                hit && !Fenced(req) && s !in evicting && old(s in SetOf(requestShards, req) || Shareable(s))
      ensures requestShards == old(requestShards)[req := old(SetOf(requestShards, req)) + if valid then {s} else {}]
      ensures Of(pendingLookupShards, req) == old(Of(pendingLookupShards, req)) - multiset{s}
      ensures lastUsed == if valid then old(lastUsed)[s := now] else old(lastUsed)
    {
      hide EvolvedSurely, Of, Leases, NonEmpty, SetOf, Fenced;
      valid, steps := ResolveLease(req, s, hit);
      if valid {
        lastUsed := lastUsed[s := now];
      }
    }

    method ForgetPin(req: string, s: Shard)
      requires s in SetOf(requestShards, req)
      modifies this`sharedLockCounts, this`sharedLockFds, this`requestShards
      ensures Can(old(View()), DropPin(req, s)) && View() == After(old(View()), DropPin(req, s))
      ensures requestShards == old(requestShards)[req := old(SetOf(requestShards, req)) - {s}]
    {
      LeasesSet(requestShards, req, SetOf(requestShards, req) - {s});
      SetAdd(SetOf(requestShards, req), s);
      ReleaseShared(s);
      requestShards := requestShards[req := requestShards[req] - {s}];
    }

    /** Release lookup leases, keeping the request's entry. */
    method ReleaseRequestPins(req: string) returns (ghost steps: seq<Step>)
      modifies this`sharedLockCounts, this`sharedLockFds, this`requestShards
      ensures EvolvedSurely(old(View()), steps, View())
      ensures requestShards == old(requestShards)[req := {}]
    {
      hide EvolvedSurely, Can, After;
      UnevolvedSurely(View());
      steps := [];
      SameLeases(requestShards, req);
      requestShards := requestShards[req := SetOf(requestShards, req)];
      while requestShards[req] != {}
        invariant req in requestShards && requestShards == old(requestShards)[req := requestShards[req]]
        invariant EvolvedSurely(old(View()), steps, View())
        decreases |requestShards[req]|
      {
        var s :| s in requestShards[req];
        ghost var before := View();
        ForgetPin(req, s);
        EvolveSurely(old(View()), steps, before, DropPin(req, s));
        steps := steps + [DropPin(req, s)];
      }
    }

    method ReleaseAllPending(req: string) returns (ghost steps: seq<Step>)
      modifies this`sharedLockCounts, this`sharedLockFds, this`pendingLookupShards
      ensures EvolvedSurely(old(View()), steps, View())
      ensures req !in pendingLookupShards
    {
      hide EvolvedSurely, Can, After;
      UnevolvedSurely(View());
      steps := [];
      while Of(pendingLookupShards, req) != multiset{}
        invariant EvolvedSurely(old(View()), steps, View())
        decreases |Of(pendingLookupShards, req)|
      {
        var s :| s in Of(pendingLookupShards, req);
        ghost var before := View();
        ForgetPending(req, s);
        EvolveSurely(old(View()), steps, before, ShardLeases.Step.DropPending(req, s));
        steps := steps + [ShardLeases.Step.DropPending(req, s)];
      }
      DropEmptyPending(req);
    }

    /** A new request, or an old id used again: forget everything recorded for it. */
    method OpenRequest(req: string) returns (ghost steps: seq<Step>)
      modifies this`sharedLockCounts, this`sharedLockFds, this`requestShards, this`pendingLookupShards,
               this`closedRequests, this`lookupCancelled
      ensures EvolvedSurely(old(View()), steps, View())
      ensures !Fenced(req) && requestShards == old(requestShards)[req := {}] && req !in pendingLookupShards
    {
      hide EvolvedSurely, Leases, NonEmpty;
      WithoutNone(closedRequests, req);
      closedRequests := Without(closedRequests, req);
      lookupCancelled := lookupCancelled - {req};
      UnevolvedSurely(old(View()));
      EvolveSurely(old(View()), [], old(View()), ReopenRequest(req));
      steps := [] + [ReopenRequest(req)];
      ghost var reopened := View();
      ghost var pins := ReleaseRequestPins(req);
      EvolveSurelyOn(old(View()), steps, reopened, pins, View());
      ghost var unpinned := View();
      ghost var pending := ReleaseAllPending(req);
      EvolveSurelyOn(old(View()), steps + pins, unpinned, pending, View());
      steps := steps + pins + pending;
    }

    /** Fence late lookup results without closing the request for stores. */
    method CancelLookup(req: string, releasePins: bool) returns (ghost steps: seq<Step>)
      modifies this`sharedLockCounts, this`sharedLockFds, this`requestShards, this`pendingLookupShards,
               this`lookupCancelled
      ensures EvolvedSurely(old(View()), steps, View())
      ensures Fenced(req) && req !in pendingLookupShards
      ensures requestShards == if releasePins then old(requestShards)[req := {}] else old(requestShards)
      ensures releasePins ==> Shut(View(), req, 0)
    {
      hide EvolvedSurely, ClosedRecently, NonEmpty;
      lookupCancelled := lookupCancelled + {req};
      UnevolvedSurely(old(View()));
      EvolveSurely(old(View()), [], old(View()), CancelRequest(req));
      steps := [] + [CancelRequest(req)];
      ghost var fenced := View();
      ghost var pending := ReleaseAllPending(req);
      EvolveSurelyOn(old(View()), steps, fenced, pending, View());
      steps := steps + pending;
      if releasePins {
        ghost var before := View();
        ghost var pins := ReleaseRequestPins(req);
        EvolveSurelyOn(old(View()), steps, before, pins, View());
        steps := steps + pins;
      }
    }

    /** The end of a request: release everything and fence late results. */
    method ReleaseRequest(req: string) returns (ghost steps: seq<Step>)
      modifies this`sharedLockCounts, this`sharedLockFds, this`requestShards, this`pendingLookupShards,
               this`lookupCancelled, this`closedRequests
      ensures EvolvedSurely(old(View()), steps, View())
      ensures requestShards == old(requestShards) - {req} && req !in pendingLookupShards
      ensures Shut(View(), req, 0)
    {
      hide EvolvedSurely, ClosedRecently, Without;
      ghost var pins := ReleaseRequestPins(req);
      LeasesPop(requestShards, req);
      requestShards := requestShards - {req};
      ghost var unpinned := View();
      ghost var pending := ReleaseAllPending(req);
      EvolveSurelyOn(old(View()), pins, unpinned, pending, View());
      NonEmptyPop(pendingLookupShards, req);
      ghost var released := View();
      lookupCancelled := lookupCancelled - {req};
      closedRequests := ClosedAfter(closedRequests, req);
      EvolveSurely(old(View()), pins + pending, released, CloseRequest(req));
      ClosedThenShut(released, req);
      steps := pins + pending + [CloseRequest(req)];
    }

    /** Acquire a job's shards until one is under eviction or refused. */
    method AcquireForJob(job: int, shards: set<Shard>, ghost others: map<int, multiset<Shard>>)
        returns (acquired: set<Shard>, ghost steps: seq<Step>)
      requires job !in others && View().jobs == others
      modifies this`sharedLockCounts, this`sharedLockFds, kernel
      ensures EvolvedSurely(old(View()), steps, Mirror(View(), others, job, acquired))
      ensures acquired <= shards && acquired !! evicting
      ensures sharedLockCounts == old(sharedLockCounts) + multiset(acquired)
      ensures (forall s :: s in shards ==> old(Surely(s))) ==> acquired == shards
      ensures (exists s :: s in shards && old(Hardly(s))) ==> acquired != shards
    {
      hide EvolvedSurely, Can, After, Leases, NonEmpty, Put, Mirror, Always, Never, Later;
      LaterAll(kernel.states);
      FreshMirror(View(), others, job);
      UnevolvedSurely(View());
      steps := [];
      acquired := {};
      var todo := shards;
      while todo != {}
        invariant acquired + todo == shards && acquired !! todo && acquired !! evicting
        invariant sharedLockCounts == old(sharedLockCounts) + multiset(acquired)
        invariant EvolvedSurely(old(View()), steps, Mirror(View(), others, job, acquired))
        invariant Later(old(kernel.states), kernel.states)
        invariant forall s :: s in acquired ==> !old(Hardly(s))
        decreases |todo|
      {
        var s :| s in todo;
        ghost var states := kernel.states;
        LaterGrants(old(kernel.states), states, s, false);
        NowGrants(kernel, s, false);
        if s in evicting {
          return;
        }
        ghost var before := View();
        var granted := AcquireShared(s);
        if !granted {
          return;
        }
        LaterOn(old(kernel.states), states, kernel.states);
        EvolveMirror(old(View()), steps, before, others, job, acquired, s);
        steps := steps + [AddJob(job, s, true)];
        CountsOne(old(sharedLockCounts), acquired, s);
        acquired, todo := acquired + {s}, todo - {s};
      }
    }

    /** Lease all shards of a transfer job, or none of them. Job ids are fresh. */
    method PinJob(job: int, shards: set<Shard>) returns (ok: bool, ghost steps: seq<Step>)
      requires job !in jobShards
      modifies this`sharedLockCounts, this`sharedLockFds, this`jobShards, kernel
      ensures EvolvedSurely(old(View()), steps, View())
      ensures ok ==> jobShards == old(jobShards)[job := shards] && shards !! evicting
      ensures ok ==> sharedLockCounts == old(sharedLockCounts) + multiset(shards)
      ensures !ok ==> jobShards == old(jobShards) && sharedLockCounts == old(sharedLockCounts)
      ensures (forall s :: s in shards ==> old(Surely(s))) ==> ok
      ensures (exists s :: s in shards && old(Hardly(s))) ==> !ok
    {
      hide EvolvedSurely, Leases, NonEmpty, Put, Surely, Hardly;
      ghost var others := Leases(jobShards);
      LeasesPop(jobShards, job);
      var acquired;
      acquired, steps := AcquireForJob(job, shards, others);
      ok := acquired == shards;
      if ok {
        LeasesSet(jobShards, job, shards);
        jobShards := jobShards[job := shards];
      } else {
        ghost var before := Mirror(View(), others, job, acquired);
        ghost var undo := ReleaseAcquired(job, acquired, others);
        EvolveSurelyOn(old(View()), steps, before, undo, View());
        steps := steps + undo;
        CountsBack(old(sharedLockCounts), acquired);
      }
    }

    /** Release the shards a job's pinning had acquired, or those of a finished job. */
    method ReleaseAcquired(job: int, shards: set<Shard>, ghost others: map<int, multiset<Shard>>)
        returns (ghost steps: seq<Step>)
      requires job !in others && Leases(jobShards) == others
      modifies this`sharedLockCounts, this`sharedLockFds
      ensures EvolvedSurely(old(Mirror(View(), others, job, shards)), steps, View())
      ensures sharedLockCounts == old(sharedLockCounts) - multiset(shards)
    {
      hide EvolvedSurely, Can, After, Leases, NonEmpty, Put;
      UnevolvedSurely(Mirror(View(), others, job, shards));
      FreshMirror(View(), others, job);
      steps := [];
      var acquired := shards;
      while acquired != {}
        invariant acquired <= shards
        invariant sharedLockCounts == old(sharedLockCounts) - multiset(shards - acquired)
        invariant EvolvedSurely(old(Mirror(View(), others, job, shards)), steps, Mirror(View(), others, job, acquired))
        decreases |acquired|
      {
        var s :| s in acquired;
        ghost var before := View();
        ReleaseShared(s);
        MirrorDrop(before, others, job, acquired, s);
        EvolveSurely(old(Mirror(View(), others, job, shards)), steps, Mirror(before, others, job, acquired),
                     DropJob(job, s));
        steps := steps + [DropJob(job, s)];
        ReleasedOne(old(sharedLockCounts), shards, acquired, s);
        acquired := acquired - {s};
        FreshMirror(View(), others, job);
      }
      assert shards - acquired == shards;
    }

    method ReleaseJob(job: int) returns (ghost steps: seq<Step>)
      modifies this`sharedLockCounts, this`sharedLockFds, this`jobShards
      ensures EvolvedSurely(old(View()), steps, View())
      ensures jobShards == old(jobShards) - {job}
      ensures sharedLockCounts == old(sharedLockCounts) - multiset(old(SetOf(jobShards, job)))
    {
      hide EvolvedSurely, NonEmpty;
      var shards := SetOf(jobShards, job);
      LeasesWithout(jobShards, job);
      jobShards := jobShards - {job};
      assert Mirror(View(), Leases(jobShards), job, shards) == old(View());
      steps := ReleaseAcquired(job, shards, Leases(jobShards));
    }

    /** The shards some request, lookup or job of this process holds. */
    function Held(): set<Shard>
      reads this`requestShards, this`pendingLookupShards, this`jobShards
    {
      (set req, s | req in requestShards && s in requestShards[req] :: s)
      + (set req, s | req in pendingLookupShards && s in pendingLookupShards[req] :: s)
      + (set job, s | job in jobShards && s in jobShards[job] :: s)
    }

    lemma HeldIffLeased(s: Shard)
      ensures s in Held() <==> View().Leased(s)
    {
      var ix := View();
      LeasedIff(ix, s);
      hide Index.Leased, Total;
      assert (exists req :: req in requestShards && s in requestShards[req]) <==>
             (exists req :: req in ix.pins && s in ix.pins[req]) by {
        assert forall req :: req in requestShards && s in requestShards[req] ==> req in ix.pins && s in ix.pins[req];
      }
      assert (exists req :: req in pendingLookupShards && s in pendingLookupShards[req]) <==>
             (exists req :: req in ix.pending && s in ix.pending[req]) by {
        assert forall req :: req in pendingLookupShards && s in pendingLookupShards[req] ==>
                               req in ix.pending && s in ix.pending[req];
      }
      assert (exists job :: job in jobShards && s in jobShards[job]) <==>
             (exists job :: job in ix.jobs && s in ix.jobs[job]) by {
        assert forall job :: job in jobShards && s in jobShards[job] ==> job in ix.jobs && s in ix.jobs[job];
      }
    }

    function Idle(): set<Shard>
      reads this`requestShards, this`pendingLookupShards, this`jobShards, this`lastUsed, this`evicting
    {
      set s | s in lastUsed && s !in Held() && s !in evicting
    }

    /** The shards that may be evicted are those known that nobody leases and that are not being evicted. */
    lemma IdleIff(s: Shard)
      ensures s in Idle() <==> s in lastUsed && s !in evicting && !View().Leased(s)
    {
      hide Held, Index.Leased;
      HeldIffLeased(s);
    }

    lemma IdleEvictable()
      ensures Evictable(View(), Idle())
    {
      forall s | s in Idle() ensures !View().Leased(s) {
        HeldIffLeased(s);
      }
    }

    method Oldest(shards: set<Shard>) returns (oldest: Shard)
      requires shards != {} && shards <= lastUsed.Keys
      ensures oldest in shards && OlderThanAll(lastUsed, oldest, shards)
    {
      hide Older;
      oldest :| oldest in shards;
      var seen, todo := {oldest}, shards - {oldest};
      while todo != {}
        invariant seen + todo == shards && seen !! todo && oldest in seen
        invariant OlderThanAll(lastUsed, oldest, seen)
        decreases |todo|
      {
        var s :| s in todo;
        NextOldest(lastUsed, oldest, seen, s);
        oldest := if Older(lastUsed, s, oldest) then s else oldest;
        seen, todo := seen + {s}, todo - {s};
      }
      assert seen == shards;
    }

    /** The shard can be taken for eviction whatever the others do meanwhile. */
    ghost predicate Free(s: Shard)
      reads this`sharedLockFds, kernel
    {
      s !in sharedLockFds && Always(kernel.states, s, true)
    }

    /** It cannot, whatever they do. */
    ghost predicate Kept(s: Shard)
      reads this`sharedLockFds, kernel
    {
      s in sharedLockFds || Never(kernel.states, s, true)
    }

    /** Lease for eviction the oldest idle shard whose lock is granted: all older idle ones were
        refused, and if none is granted all were. */
    method BeginOldestEviction() returns (result: Option<Shard>, ghost refused: set<Shard>, ghost steps: seq<Step>)
      modifies this`evicting, kernel
      ensures EvolvedSurely(old(View()), steps, View())
      ensures result.None? ==> refused == old(Idle()) && evicting == old(evicting)
      ensures result.Some? ==>
                && result.value in old(Idle()) && evicting == old(evicting) + {result.value}
                && refused <= old(Idle()) && OlderThanAll(lastUsed, result.value, old(Idle()) - refused)
      ensures result.Some? ==> forall s :: s in old(Idle()) && s !in refused && s != result.value ==>
                lastUsed[result.value] < lastUsed[s] || (lastUsed[result.value] == lastUsed[s] && result.value < s)
      ensures AllRefused(refused, steps)
      ensures result.Some? ==> !old(Kept(result.value))
      ensures forall s :: s in refused ==> !old(Free(s))
    {
      hide EvolvedSurely, OlderThanAll, AllRefused, Evictable, Held, Kept, Free;
      IdleEvictable();
      assert Idle() <= lastUsed.Keys;
      result, refused, steps := EvictOldestOf(Idle());
      if result.Some? {
        OlderIs(lastUsed, result.value, old(Idle()) - refused);
      }
    }

    method EvictOldestOf(idle: set<Shard>)
        returns (result: Option<Shard>, ghost refused: set<Shard>, ghost steps: seq<Step>)
      requires idle <= lastUsed.Keys && Evictable(View(), idle)
      modifies this`evicting, kernel
      ensures EvolvedSurely(old(View()), steps, View())
      ensures result.None? ==> refused == idle && evicting == old(evicting)
      ensures result.Some? ==>
                && result.value in idle && evicting == old(evicting) + {result.value}
                && refused <= idle && OlderThanAll(lastUsed, result.value, idle - refused)
      ensures AllRefused(refused, steps)
      ensures result.Some? ==> !old(Kept(result.value))
      ensures forall s :: s in refused ==> !old(Free(s))
    {
      hide EvolvedSurely, OlderThanAll, AllRefused, Leases, NonEmpty, Index.Leased, Can, After, Always, Never, Later;
      LaterAll(kernel.states);
      var candidates := idle;
      refused, steps := {}, [];
      UnevolvedSurely(View());
      NoneRefused();
      while candidates != {}
        invariant candidates <= idle && refused == idle - candidates && AllRefused(refused, steps)
        invariant View() == old(View()) && EvolvedSurely(old(View()), steps, View())
        invariant Later(old(kernel.states), kernel.states)
        invariant forall s :: s in refused ==> !old(Free(s))
        decreases |candidates|
      {
        var s := Oldest(candidates);
        ghost var states := kernel.states;
        LaterGrants(old(kernel.states), states, s, true);
        NowGrants(kernel, s, true);
        assert !View().Leased(s) && s !in evicting;
        ghost var step, before := TryEvict(s);
        LaterOn(old(kernel.states), states, kernel.states);
        EvolveSurely(old(View()), steps, before, step);
        OneMoreRefused(refused, steps, s, step);
        steps := steps + [step];
        if s in evicting {
          assert idle - refused == candidates;
          return Some(s), refused, steps;
        }
        candidates, refused := candidates - {s}, refused + {s};
      }
      result := None;
    }

    method TryEvict(s: Shard) returns (ghost step: Step, ghost before: Index)
      requires !View().Leased(s) && s !in evicting
      modifies this`evicting, kernel
      ensures before == old(View()) && step == BeginEviction(s, s in evicting)
      ensures Can(before, step) && View() == After(before, step)
      ensures s !in evicting ==> View() == before
      ensures evicting == old(evicting) + if s in evicting then {s} else {}
      ensures s in evicting <==> s !in sharedLockFds && old(Grants(kernel.Now(), s, true))
      ensures Later(old(kernel.states), kernel.states)
    {
      before := View();
      var granted := kernel.TryLock(s, true, s in sharedLockFds);
      step := BeginEviction(s, granted);
      if granted {
        evicting := evicting + {s};
      }
    }

    /** The end of a shard's deletion; a failed one makes the shard as old as its directory. */
    method FinishEviction(s: Shard, success: bool, isDirectory: bool, mtime: Option<int>)
        returns (ghost steps: seq<Step>)
      modifies this`evicting, this`lastUsed
      ensures EvolvedSurely(old(View()), steps, View())
      ensures evicting == old(evicting) - {s}
      ensures lastUsed == if success || (isDirectory && mtime.None?) then old(lastUsed) - {s}
                          else if isDirectory then old(lastUsed)[s := mtime.value] else old(lastUsed)
    {
      hide EvolvedSurely;
      UnevolvedSurely(View());
      steps := [];
      if s in evicting {
        EvolveSurely(View(), [], View(), EndEviction(s));
        steps := [] + [EndEviction(s)];
      }
      assert s !in evicting ==> evicting - {s} == evicting;
      evicting := evicting - {s};
      assert EvolvedSurely(old(View()), steps, View());
      if success {
        lastUsed := lastUsed - {s};
      } else if isDirectory {
        if mtime.Some? {
          lastUsed := lastUsed[s := mtime.value];
        } else {
          lastUsed := lastUsed - {s};
        }
      }
    }

    /** A finished store makes its shards the newest. */
    method RecordStore(shards: set<Shard>, now: int)
      modifies this`lastUsed
      ensures lastUsed == old(lastUsed) + map s | s in shards :: now
    {
      var rest := shards;
      while rest != {}
        invariant rest <= shards && lastUsed == old(lastUsed) + map s | s in shards - rest :: now
      {
        var s :| s in rest;
        lastUsed := lastUsed[s := now];
        rest := rest - {s};
      }
    }

    /** A finished load renews the shards still known and not under eviction. */
    method RecordAccess(shards: set<Shard>, now: int)
      modifies this`lastUsed
      ensures lastUsed == old(lastUsed) + map s | s in shards && s in old(lastUsed) && s !in evicting :: now
    {
      var rest := shards;
      while rest != {}
        invariant rest <= shards
        invariant lastUsed == old(lastUsed) + map s | s in shards - rest && s in old(lastUsed) && s !in evicting :: now
      {
        var s :| s in rest;
        if s in lastUsed && s !in evicting {
          lastUsed := lastUsed[s := now];
        }
        rest := rest - {s};
      }
    }

    /** The shards a request's touch counts for: those it has leased and that are not under eviction, while it
        is open. Touches are sent to all tiers, also for what this tier does not hold. */
    function TouchedBy(req: string, shards: seq<Shard>): set<Shard>
      reads this`closedRequests, this`requestShards, this`evicting
    {
      if req in closedRequests then {} else set s | s in shards && s in SetOf(requestShards, req) && s !in evicting
    }

    lemma TouchedByNext(req: string, shards: seq<Shard>, i: nat)
      requires i < |shards| && req !in closedRequests
      ensures TouchedBy(req, shards[..i + 1]) == TouchedBy(req, shards[..i]) +
                if shards[i] in SetOf(requestShards, req) && shards[i] !in evicting then {shards[i]} else {}
    {
      assert shards[..i + 1] == shards[..i] + [shards[i]];
    }

    lemma TouchedByNobody(req: string, shards: seq<Shard>)
      requires req in closedRequests || SetOf(requestShards, req) == {} || shards == []
      ensures TouchedBy(req, shards) == {}
    {
    }

    method Touch(req: string, shards: seq<Shard>, now: int)
      modifies this`lastUsed
      ensures lastUsed == Touched(old(lastUsed), TouchedBy(req, shards), now)
    {
      hide Touched, TouchedBy, SetOf;
      TouchedNone(lastUsed, now);
      if req in closedRequests || SetOf(requestShards, req) == {} {
        TouchedByNobody(req, shards);
        return;
      }
      TouchedByNobody(req, shards[..0]);
      for i := 0 to |shards|
        invariant lastUsed == Touched(old(lastUsed), TouchedBy(req, shards[..i]), now)
      {
        TouchedMore(old(lastUsed), TouchedBy(req, shards[..i]), now, shards[i]);
        TouchedByNext(req, shards, i);
        if shards[i] in SetOf(requestShards, req) && shards[i] !in evicting {
          lastUsed := lastUsed[shards[i] := now];
        }
      }
      assert shards[..|shards|] == shards;
    }
  }
}
