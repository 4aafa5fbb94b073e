/** Reference-counted shard leases of one process, as a value advanced one lock call at a time.

    A shard is leased for a request's lookup hits (pins), for its queued or running lookups
    (pending) and for transfer jobs. One descriptor stands for all holders of a shard in a
    process; `counts` says how many there are.
 */
module ShardLeases {
  import opened Sums

  type Shard = nat

  /** How many finished requests the cancellation fence remembers. */
  const CLOSED_LIMIT := 100_000

  function Of<K>(m: map<K, multiset<Shard>>, k: K): multiset<Shard> {
    if k in m then m[k] else multiset{}
  }

  function Put<K>(m: map<K, multiset<Shard>>, k: K, v: multiset<Shard>): map<K, multiset<Shard>> {
    if v == multiset{} then m - {k} else m[k := v]
  }

  /** Everything recorded under any key. */
  ghost function Total<K>(m: map<K, multiset<Shard>>): multiset<Shard>
    decreases |m|
  {
    if m == map[] then multiset{} else
      var k :| k in m;
      Smaller(m, k);
      m[k] + Total(m - {k})
  }

  lemma {:induction false} TotalPick<K>(m: map<K, multiset<Shard>>, k: K)
    requires k in m
    ensures Total(m) == m[k] + Total(m - {k})
    decreases |m|
  {
    var first :| first in m && Total(m) == m[first] + Total(m - {first});
    if first != k {
      Smaller(m, first);
      Smaller(m, k);
      TotalPick(m - {first}, k);
      TotalPick(m - {k}, first);
      assert m - {first} - {k} == m - {k} - {first};
    }
  }

  lemma TotalPut<K>(m: map<K, multiset<Shard>>, k: K, v: multiset<Shard>)
    ensures Total(Put(m, k, v)) + Of(m, k) == Total(m) + v
  {
    var rest := m - {k};
    if k in m {
      TotalPick(m, k);
    } else {
      assert rest == m;
    }
    if v != multiset{} {
      TotalPick(m[k := v], k);
      assert m[k := v] - {k} == rest;
    }
  }

  lemma TotalHas<K>(m: map<K, multiset<Shard>>, k: K)
    ensures Of(m, k) <= Total(m)
  {
    if k in m {
      TotalPick(m, k);
    }
  }

  function Without(reqs: seq<string>, req: string): seq<string> {
    if reqs == [] then []
    else if reqs[0] == req then Without(reqs[1..], req)
    else [reqs[0]] + Without(reqs[1..], req)
  }

  datatype Index = Index(
    counts: multiset<Shard>,
    descriptors: set<Shard>,
    pins: map<string, multiset<Shard>>,
    pending: map<string, multiset<Shard>>,
    jobs: map<int, multiset<Shard>>,
    evicting: set<Shard>,
    closed: seq<string>,
    cancelled: set<string>)
  {
    predicate Fenced(req: string) {
      req in closed || req in cancelled
    }

    function Acquired(s: Shard): Index {
      this.(counts := counts + multiset{s},
            descriptors := if s in counts then descriptors else descriptors + {s})
    }

    /** Releasing a shard nobody counts changes nothing. */
    function Released(s: Shard): Index {
      this.(counts := counts - multiset{s},
            descriptors := if counts[s] <= 1 then descriptors - {s} else descriptors)
    }

    /** The shards eviction must not touch. */
    ghost predicate Leased(s: Shard) {
      s in Total(pins) || s in Total(pending) || s in Total(jobs)
    }

    /** Every holder of every shard, as often as it holds it. */
    ghost function Recorded(): multiset<Shard> {
      Total(pins) + Total(pending) + Total(jobs)
    }
  }

  const EMPTY := Index(multiset{}, {}, map[], map[], map[], {}, [], {})

  /** One lock call or record of an index operation; `granted` is the lock call's outcome. */
  datatype Step =
    | AddPending(req: string, shard: Shard, granted: bool)
    | DropPending(req: string, shard: Shard)
    | AddPin(req: string, shard: Shard, granted: bool)
    | RePin(req: string, shard: Shard, granted: bool)
    | DropPin(req: string, shard: Shard)
    | AddJob(job: int, shard: Shard, granted: bool)
    | DropJob(job: int, shard: Shard)
    | BeginEviction(shard: Shard, granted: bool)
    | EndEviction(shard: Shard)
    | CloseRequest(req: string)
    | CancelRequest(req: string)
    | ReopenRequest(req: string)

  ghost predicate Can(ix: Index, step: Step) {
    match step
    case AddPending(req, s, granted) => !ix.Fenced(req) && (s in ix.counts ==> granted)
    case DropPending(req, s) => s in Of(ix.pending, req)
    case AddPin(req, s, granted) =>
      !ix.Fenced(req) && s !in ix.evicting && s !in Of(ix.pins, req) && (s in ix.counts ==> granted)
    case RePin(req, s, granted) => !ix.Fenced(req) && s !in Of(ix.pins, req) && (s in ix.counts ==> granted)
    case DropPin(req, s) => s in Of(ix.pins, req)
    case AddJob(job, s, granted) => s !in ix.evicting && s !in Of(ix.jobs, job) && (s in ix.counts ==> granted)
    case DropJob(job, s) => s in Of(ix.jobs, job)
    case BeginEviction(s, _) => !ix.Leased(s) && s !in ix.evicting
    case EndEviction(s) => s in ix.evicting
    case CloseRequest(req) => req !in ix.pins && req !in ix.pending
    case CancelRequest(_) => true
    case ReopenRequest(_) => true
  }

  function ClosedAfter(closed: seq<string>, req: string): seq<string> {
    var reqs := Without(closed, req) + [req];
    if |reqs| > CLOSED_LIMIT then reqs[1..] else reqs
  }

  function After(ix: Index, step: Step): Index {
    match step
    case AddPending(req, s, granted) =>
      if granted then ix.Acquired(s).(pending := Put(ix.pending, req, Of(ix.pending, req) + multiset{s})) else ix
    case DropPending(req, s) =>
      ix.Released(s).(pending := Put(ix.pending, req, Of(ix.pending, req) - multiset{s}))
    case AddPin(req, s, granted) =>
      if granted then ix.Acquired(s).(pins := Put(ix.pins, req, Of(ix.pins, req) + multiset{s})) else ix
    case RePin(req, s, granted) =>
      // The refusal is ignored: the pin is recorded either way.
      (if granted then ix.Acquired(s) else ix).(pins := Put(ix.pins, req, Of(ix.pins, req) + multiset{s}))
    case DropPin(req, s) =>
      ix.Released(s).(pins := Put(ix.pins, req, Of(ix.pins, req) - multiset{s}))
    case AddJob(job, s, granted) =>
      if granted then ix.Acquired(s).(jobs := Put(ix.jobs, job, Of(ix.jobs, job) + multiset{s})) else ix
    case DropJob(job, s) =>
      ix.Released(s).(jobs := Put(ix.jobs, job, Of(ix.jobs, job) - multiset{s}))
    case BeginEviction(s, granted) => if granted then ix.(evicting := ix.evicting + {s}) else ix
    case EndEviction(s) => ix.(evicting := ix.evicting - {s})
    case CloseRequest(req) => ix.(cancelled := ix.cancelled - {req}, closed := ClosedAfter(ix.closed, req))
    case CancelRequest(req) => ix.(cancelled := ix.cancelled + {req})
    case ReopenRequest(req) => ix.(cancelled := ix.cancelled - {req}, closed := Without(ix.closed, req))
  }

  /** What a step does to a count of holders; only the records notice a refused reacquire. */
  function Recount(m: multiset<Shard>, step: Step, recorded: bool): multiset<Shard> {
    match step
    case AddPending(_, s, granted) => if granted then m + multiset{s} else m
    case AddPin(_, s, granted) => if granted then m + multiset{s} else m
    case RePin(_, s, granted) => if granted || recorded then m + multiset{s} else m
    case AddJob(_, s, granted) => if granted then m + multiset{s} else m
    case DropPending(_, s) => m - multiset{s}
    case DropPin(_, s) => m - multiset{s}
    case DropJob(_, s) => m - multiset{s}
    case _ => m
  }

  lemma Cancel(a: multiset<Shard>, b: multiset<Shard>, c: multiset<Shard>)
    requires a + c == b + c
    ensures a == b
  {
    forall x ensures a[x] == b[x] {
      assert (a + c)[x] == (b + c)[x];
    }
  }

  lemma TotalAdd<K>(m: map<K, multiset<Shard>>, k: K, s: Shard)
    ensures Total(Put(m, k, Of(m, k) + multiset{s})) == Total(m) + multiset{s}
  {
    hide Put, Total;
    var v := Of(m, k) + multiset{s};
    TotalPut(m, k, v);
    assert Total(m) + v == Total(m) + multiset{s} + Of(m, k);
    Cancel(Total(Put(m, k, v)), Total(m) + multiset{s}, Of(m, k));
  }

  lemma TotalDrop<K>(m: map<K, multiset<Shard>>, k: K, s: Shard)
    requires s in Of(m, k)
    ensures Total(m) == Total(Put(m, k, Of(m, k) - multiset{s})) + multiset{s}
  {
    hide Put, Total;
    var v := Of(m, k) - multiset{s};
    TotalPut(m, k, v);
    assert v + multiset{s} == Of(m, k);
    assert Total(Put(m, k, v)) + Of(m, k) == Total(Put(m, k, v)) + multiset{s} + v;
    Cancel(Total(m), Total(Put(m, k, v)) + multiset{s}, v);
  }

  lemma PinsMore(ix: Index, next: Index, k: string, s: Shard)
    requires next == ix.(pins := next.pins, counts := next.counts, descriptors := next.descriptors)
    requires next.pins == Put(ix.pins, k, Of(ix.pins, k) + multiset{s})
    ensures next.Recorded() == ix.Recorded() + multiset{s}
  {
    hide Put, Of, Total;
    TotalAdd(ix.pins, k, s);
  }

  lemma PinsLess(ix: Index, next: Index, k: string, s: Shard)
    requires next == ix.(pins := next.pins, counts := next.counts, descriptors := next.descriptors)
    requires s in Of(ix.pins, k) && next.pins == Put(ix.pins, k, Of(ix.pins, k) - multiset{s})
    ensures next.Recorded() == ix.Recorded() - multiset{s} && s in ix.Recorded()
  {
    hide Put, Of, Total;
    TotalDrop(ix.pins, k, s);
  }

  lemma PendingMore(ix: Index, next: Index, k: string, s: Shard)
    requires next == ix.(pending := next.pending, counts := next.counts, descriptors := next.descriptors)
    requires next.pending == Put(ix.pending, k, Of(ix.pending, k) + multiset{s})
    ensures next.Recorded() == ix.Recorded() + multiset{s}
  {
    hide Put, Of, Total;
    TotalAdd(ix.pending, k, s);
  }

  lemma PendingLess(ix: Index, next: Index, k: string, s: Shard)
    requires next == ix.(pending := next.pending, counts := next.counts, descriptors := next.descriptors)
    requires s in Of(ix.pending, k) && next.pending == Put(ix.pending, k, Of(ix.pending, k) - multiset{s})
    ensures next.Recorded() == ix.Recorded() - multiset{s} && s in ix.Recorded()
  {
    hide Put, Of, Total;
    TotalDrop(ix.pending, k, s);
  }

  lemma JobsMore(ix: Index, next: Index, k: int, s: Shard)
    requires next == ix.(jobs := next.jobs, counts := next.counts, descriptors := next.descriptors)
    requires next.jobs == Put(ix.jobs, k, Of(ix.jobs, k) + multiset{s})
    ensures next.Recorded() == ix.Recorded() + multiset{s}
  {
    hide Put, Of, Total;
    TotalAdd(ix.jobs, k, s);
  }

  lemma JobsLess(ix: Index, next: Index, k: int, s: Shard)
    requires next == ix.(jobs := next.jobs, counts := next.counts, descriptors := next.descriptors)
    requires s in Of(ix.jobs, k) && next.jobs == Put(ix.jobs, k, Of(ix.jobs, k) - multiset{s})
    ensures next.Recorded() == ix.Recorded() - multiset{s} && s in ix.Recorded()
  {
    hide Put, Of, Total;
    TotalDrop(ix.jobs, k, s);
  }

  lemma RecordedAfter(ix: Index, step: Step)
    requires Can(ix, step)
    ensures After(ix, step).Recorded() == Recount(ix.Recorded(), step, true)
    ensures step.DropPending? || step.DropPin? || step.DropJob? ==> step.shard in ix.Recorded()
  {
    hide Put, Of, Total, Without, ClosedAfter, Index.Recorded;
    var next := After(ix, step);
    match step {
      case AddPending(req, s, granted) => if granted { PendingMore(ix, next, req, s); }
      case DropPending(req, s) => PendingLess(ix, next, req, s);
      case AddPin(req, s, granted) => if granted { PinsMore(ix, next, req, s); }
      case RePin(req, s, _) => PinsMore(ix, next, req, s);
      case DropPin(req, s) => PinsLess(ix, next, req, s);
      case AddJob(job, s, granted) => if granted { JobsMore(ix, next, job, s); }
      case DropJob(job, s) => JobsLess(ix, next, job, s);
      case _ => SameRecords(ix, next);
    }
  }

  lemma SameRecords(ix: Index, next: Index)
    requires next.pins == ix.pins && next.pending == ix.pending && next.jobs == ix.jobs
    ensures next.Recorded() == ix.Recorded()
  {
  }

  /** No lease leaks: no shard is counted more often than it has recorded holders, and a lock
      descriptor is open exactly for the shards counted. */
  ghost predicate NoLeak(ix: Index) {
    ix.counts <= ix.Recorded() && Opened(ix)
  }

  ghost predicate Opened(ix: Index) {
    forall s :: s in ix.descriptors <==> s in ix.counts
  }

  /** Exact accounting: a shard's count is the number of its holders. */
  ghost predicate Exact(ix: Index) {
    ix.counts == ix.Recorded()
  }

  predicate Forgotten(step: Step) {
    step.RePin? && !step.granted
  }

  lemma CountsAfter(ix: Index, step: Step)
    ensures After(ix, step).counts == Recount(ix.counts, step, false)
  {
    hide Put, Of, ClosedAfter, Without;
  }

  lemma AcquiredOpened(ix: Index, s: Shard)
    requires Opened(ix)
    ensures Opened(ix.Acquired(s)) && Opened(ix.Released(s))
  {
  }

  lemma OpenedAfter(ix: Index, step: Step)
    requires Opened(ix)
    ensures Opened(After(ix, step))
  {
    hide Put, Of, ClosedAfter, Without, Index.Acquired, Index.Released;
    match step {
      case CloseRequest(_) =>
      case CancelRequest(_) =>
      case ReopenRequest(_) =>
      case _ => AcquiredOpened(ix, step.shard);
    }
  }

  /** Unconditionally, whatever locks are refused. */
  lemma StepLeaksNothing(ix: Index, step: Step)
    requires NoLeak(ix) && Can(ix, step)
    ensures NoLeak(After(ix, step))
  {
    RecordedAfter(ix, step);
    CountsAfter(ix, step);
    OpenedAfter(ix, step);
    RecountMonotone(ix.counts, ix.Recorded(), step);
    hide Can, After, Index.Recorded, Opened, Recount;
  }

  lemma RecountMonotone(counted: multiset<Shard>, recorded: multiset<Shard>, step: Step)
    requires counted <= recorded
    ensures Recount(counted, step, false) <= Recount(recorded, step, true)
  {
  }

  /** Accounting stays exact through a step if and only if the step is not a refused reacquire. */
  lemma StaysExactIff(ix: Index, step: Step)
    requires Exact(ix) && Can(ix, step)
    ensures Exact(After(ix, step)) <==> !Forgotten(step)
  {
    RecordedAfter(ix, step);
    CountsAfter(ix, step);
    hide Can, After, Index.Recorded;
    if Forgotten(step) {
      assert (ix.counts + multiset{step.shard})[step.shard] == ix.counts[step.shard] + 1;
    }
  }

  ghost predicate Plays(ix: Index, steps: seq<Step>)
    decreases |steps|
  {
    steps == [] || (Can(ix, steps[0]) && Plays(After(ix, steps[0]), steps[1..]))
  }

  function Replay(ix: Index, steps: seq<Step>): Index
    decreases |steps|
  {
    if steps == [] then ix else Replay(After(ix, steps[0]), steps[1..])
  }

  lemma {:induction false} PlayConcat(ix: Index, a: seq<Step>, b: seq<Step>)
    ensures Replay(ix, a + b) == Replay(Replay(ix, a), b)
    ensures Plays(ix, a + b) <==> Plays(ix, a) && Plays(Replay(ix, a), b)
    decreases |a|
  {
    hide Can, After;
    if a == [] {
      assert a + b == b;
    } else {
      assert (a + b)[1..] == a[1..] + b;
      PlayConcat(After(ix, a[0]), a[1..], b);
    }
  }

  lemma PlaySnoc(ix: Index, steps: seq<Step>, step: Step)
    requires Plays(ix, steps) && Can(Replay(ix, steps), step)
    ensures Plays(ix, steps + [step]) && Replay(ix, steps + [step]) == After(Replay(ix, steps), step)
  {
    hide Can, After;
    PlayConcat(ix, steps, [step]);
    assert [step][1..] == [];
  }

  lemma {:induction false} RunLeaksNothing(ix: Index, steps: seq<Step>)
    requires NoLeak(ix) && Plays(ix, steps)
    ensures NoLeak(Replay(ix, steps))
    decreases |steps|
  {
    hide Can, After, NoLeak;
    if steps != [] {
      StepLeaksNothing(ix, steps[0]);
      RunLeaksNothing(After(ix, steps[0]), steps[1..]);
    }
  }

  /** With nothing recorded, no shard is counted and no descriptor is open. */
  lemma AllReleased(ix: Index)
    requires NoLeak(ix) && ix.pins == map[] && ix.pending == map[] && ix.jobs == map[]
    ensures ix.counts == multiset{} && ix.descriptors == {}
  {
  }

  lemma {:induction false} WithoutShorter(reqs: seq<string>, req: string)
    ensures |Without(reqs, req)| <= |reqs|
  {
    if reqs != [] {
      WithoutShorter(reqs[1..], req);
    }
  }

  lemma StepBounds(ix: Index, step: Step)
    requires |ix.closed| <= CLOSED_LIMIT
    ensures |After(ix, step).closed| <= CLOSED_LIMIT
  {
    hide Put, Of;
    if step.CloseRequest? || step.ReopenRequest? {
      WithoutShorter(ix.closed, step.req);
    }
  }

  /** No run remembers more closures than the limit. */
  lemma {:induction false} ClosuresBounded(ix: Index, steps: seq<Step>)
    requires |ix.closed| <= CLOSED_LIMIT
    ensures |Replay(ix, steps).closed| <= CLOSED_LIMIT
    decreases |steps|
  {
    hide After;
    if steps != [] {
      StepBounds(ix, steps[0]);
      ClosuresBounded(After(ix, steps[0]), steps[1..]);
    }
  }

  /** `req` is among the newest closures: at most `newer` of the closed requests are newer. */
  predicate ClosedRecently(closed: seq<string>, req: string, newer: nat) {
    closed != [] && ((closed[0] == req && |closed| - 1 <= newer) || ClosedRecently(closed[1..], req, newer))
  }

  lemma {:induction false} WithoutKeeps(closed: seq<string>, other: string, req: string, newer: nat)
    requires other != req && ClosedRecently(closed, req, newer)
    ensures ClosedRecently(Without(closed, other), req, newer)
    ensures |Without(closed, other)| <= |closed|
  {
    WithoutShrinks(closed, other);
    var rest := Without(closed[1..], other);
    WithoutShrinks(closed[1..], other);
    assert ([closed[0]] + rest)[1..] == rest;
    if !(closed[0] == req && |closed| - 1 <= newer) {
      WithoutKeeps(closed[1..], other, req, newer);
    }
  }

  lemma WithoutShrinks(closed: seq<string>, other: string)
    ensures |Without(closed, other)| <= |closed|
  {
  }

  lemma {:induction false} SnocAges(closed: seq<string>, other: string, req: string, newer: nat)
    requires ClosedRecently(closed, req, newer)
    ensures ClosedRecently(closed + [other], req, newer + 1)
  {
    assert (closed + [other])[1..] == closed[1..] + [other];
    if !(closed[0] == req && |closed| - 1 <= newer) {
      SnocAges(closed[1..], other, req, newer);
    }
  }

  lemma {:induction false} RecentIsClosed(closed: seq<string>, req: string, newer: nat)
    requires ClosedRecently(closed, req, newer)
    ensures req in closed
  {
    if closed[0] != req {
      RecentIsClosed(closed[1..], req, newer);
      assert closed[1..] <= closed[1..];
    }
  }

  lemma OtherClosureKeeps(closed: seq<string>, other: string, req: string, newer: nat)
    requires other != req && ClosedRecently(closed, req, newer) && newer + 1 < CLOSED_LIMIT
    ensures ClosedRecently(ClosedAfter(closed, other), req, newer + 1)
  {
    hide Without;
    WithoutKeeps(closed, other, req, newer);
    SnocAges(Without(closed, other), other, req, newer);
  }

  lemma OwnClosure(closed: seq<string>, req: string)
    ensures ClosedRecently(ClosedAfter(closed, req), req, 0)
  {
    hide Without;
    LastIsRecent(Without(closed, req), req);
    var reqs := Without(closed, req) + [req];
    if |reqs| > CLOSED_LIMIT {
      assert reqs[1..] == Without(closed, req)[1..] + [req];
      LastIsRecent(Without(closed, req)[1..], req);
    }
  }

  lemma {:induction false} LastIsRecent(closed: seq<string>, req: string)
    ensures ClosedRecently(closed + [req], req, 0)
  {
    if closed != [] {
      assert (closed + [req])[1..] == closed[1..] + [req];
      LastIsRecent(closed[1..], req);
    }
  }

  function Closures(steps: seq<Step>): nat {
    if steps == [] then 0 else (if steps[0].CloseRequest? then 1 else 0) + Closures(steps[1..])
  }

  predicate Reopens(steps: seq<Step>, req: string) {
    exists i :: 0 <= i < |steps| && steps[i] == ReopenRequest(req)
  }

  /** What holds of a request from its cancellation, or its closing, on. */
  predicate Shut(ix: Index, req: string, newer: nat) {
    && req !in ix.pins
    && (req in ix.cancelled || ClosedRecently(ix.closed, req, newer))
  }

  lemma PutOther<K>(m: map<K, multiset<Shard>>, k: K, v: multiset<Shard>, other: K)
    requires other != k
    ensures other in Put(m, k, v) <==> other in m
  {
  }

  lemma StepStaysShut(ix: Index, step: Step, req: string, newer: nat)
    requires Can(ix, step) && Shut(ix, req, newer) && step != ReopenRequest(req)
    requires step.CloseRequest? ==> newer + 1 < CLOSED_LIMIT
    ensures Shut(After(ix, step), req, if step.CloseRequest? then newer + 1 else newer)
  {
    if ClosedRecently(ix.closed, req, newer) {
      RecentIsClosed(ix.closed, req, newer);
    }
    assert ix.Fenced(req);
    hide Put, Without, ClosedAfter, ClosedRecently, Index.Leased;
    match step {
      case CloseRequest(other) =>
        if other == req {
          OwnClosure(ix.closed, req);
          OlderToo(ClosedAfter(ix.closed, req), req, 0, newer + 1);
        } else if ClosedRecently(ix.closed, req, newer) {
          OtherClosureKeeps(ix.closed, other, req, newer);
        }
      case ReopenRequest(other) =>
        if ClosedRecently(ix.closed, req, newer) {
          WithoutKeeps(ix.closed, other, req, newer);
        }
      case AddPin(other, s, _) => PutOther(ix.pins, other, Of(ix.pins, other) + multiset{s}, req);
      case RePin(other, s, _) => PutOther(ix.pins, other, Of(ix.pins, other) + multiset{s}, req);
      case DropPin(other, s) => PutOther(ix.pins, other, Of(ix.pins, other) - multiset{s}, req);
      case _ =>
    }
  }

  lemma {:induction false} OlderToo(closed: seq<string>, req: string, newer: nat, bound: nat)
    requires ClosedRecently(closed, req, newer) && newer <= bound
    ensures ClosedRecently(closed, req, bound)
  {
    if !(closed[0] == req && |closed| - 1 <= newer) {
      OlderToo(closed[1..], req, newer, bound);
    }
  }

  /** Once a request is cancelled with its pins released, or closed, no late lookup result pins a
      shard for it until it is reopened; a closed request is remembered through the next 99,999
      closures. */
  lemma {:induction false} LateResultsPinNothing(ix: Index, steps: seq<Step>, req: string, newer: nat)
    requires Plays(ix, steps) && Shut(ix, req, newer) && !Reopens(steps, req)
    requires newer + Closures(steps) < CLOSED_LIMIT
    ensures Shut(Replay(ix, steps), req, newer + Closures(steps))
    decreases |steps|
  {
    hide Can, After, Shut;
    if steps != [] {
      assert steps[0] != ReopenRequest(req);
      StepStaysShut(ix, steps[0], req, newer);
      assert forall i :: 0 <= i < |steps[1..]| ==> steps[1..][i] == steps[i + 1];
      LateResultsPinNothing(After(ix, steps[0]), steps[1..], req,
                            if steps[0].CloseRequest? then newer + 1 else newer);
    }
  }

  lemma ClosedThenShut(ix: Index, req: string)
    requires Can(ix, CloseRequest(req))
    ensures Shut(After(ix, CloseRequest(req)), req, 0)
  {
    OwnClosure(ix.closed, req);
  }
}
