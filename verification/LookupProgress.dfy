/** The lookup workers get done: left to themselves they come to rest after a bounded number of operations, and by then
    every key has its result or an answer waiting for it.
 */
module LookupProgress {
  import opened AsyncLookup
  import opened Sums
  import opened Wrappers

  /** How many operations a worker has before it, if nothing is cancelled. */
  function Left(w: Worker): nat {
    match w
    case Idle => 0
    case Filtering(todo, kept) => 2 * |todo| + |kept| + 3
    case Looking(items) => |items| + 2
    case Checking(left, _, _) => |left| + 1
  }

  function QueueLeft(queue: seq<seq<Item>>): nat {
    if queue == [] then 0 else 2 * |queue[0]| + 4 + QueueLeft(queue[1..])
  }

  function AllLeft(workers: map<nat, Worker>): map<nat, int> {
    map w | w in workers :: Left(workers[w])
  }

  ghost function WorkLeft(s: System): int {
    SumOf(AllLeft(s.workers)) + QueueLeft(s.queue)
  }

  lemma {:induction false} SumNonNegative(m: map<nat, int>)
    requires forall k :: k in m ==> m[k] >= 0
    ensures SumOf(m) >= 0
    decreases |m|
  {
    if m != map[] {
      var k := SomeKey(m);
      SumPick(m, k);
      Smaller(m, k);
      SumNonNegative(m - {k});
    }
  }

  lemma WorkLeftIsNat(s: System)
    ensures WorkLeft(s) >= 0
  {
    SumNonNegative(AllLeft(s.workers));
  }

  /** Every operation of a worker takes some of the work away. */
  lemma WorkDecreases(s: System, step: Step)
    requires CanWork(s, step) && Parallel(s.workers)
    ensures WorkLeft(Worked(s, step, step.worker)) < WorkLeft(s)
  {
    var w, next := step.worker, Worked(s, step, step.worker);
    var before, after := s.workers[w], next.workers[w];
    StepTakes(s, step);
    assert AllLeft(next.workers) == AllLeft(s.workers)[w := Left(after)];
    SumSet(AllLeft(s.workers), w, Left(after));
    SumPick(AllLeft(s.workers), w);
  }

  lemma StepTakes(s: System, step: Step)
    requires CanWork(s, step) && Parallel(s.workers)
    ensures var next := Worked(s, step, step.worker);
            Left(next.workers[step.worker]) + QueueLeft(next.queue) < Left(s.workers[step.worker]) + QueueLeft(s.queue)
  {
  }

  /** Only workers move. */
  ghost predicate OnlyWork(s: System, steps: seq<Step>)
    decreases |steps|
  {
    steps == [] || (CanWork(s, steps[0]) && OnlyWork(Worked(s, steps[0], steps[0].worker), steps[1..]))
  }

  ghost function WorkedOn(s: System, steps: seq<Step>): System
    requires OnlyWork(s, steps)
    decreases |steps|
  {
    if steps == [] then s else WorkedOn(Worked(s, steps[0], steps[0].worker), steps[1..])
  }

  /** However they interleave, the workers can make only so many operations before the scheduler moves again. */
  lemma {:induction false} WorkersFinish(s: System, steps: seq<Step>)
    requires Inv(s) && OnlyWork(s, steps)
    ensures |steps| + WorkLeft(WorkedOn(s, steps)) <= WorkLeft(s)
    ensures Inv(WorkedOn(s, steps))
    decreases |steps|
  {
    hide Indexed, Tokens, NoneStranded, Worked, WorkLeft;
    if steps != [] {
      WorkKeeps(s, steps[0]);
      WorkDecreases(s, steps[0]);
      WorkersFinish(Worked(s, steps[0], steps[0].worker), steps[1..]);
    }
  }

  /** Some worker can go on. */
  ghost predicate SomeCanWork(s: System) {
    exists step :: CanWork(s, step)
  }

  /** As long as a worker is busy, or one is there and a chunk is queued, some worker can go on. */
  lemma BusyCanWork(s: System, w: nat)
    requires Parallel(s.workers) && w in s.workers && (!s.workers[w].Idle? || s.queue != [])
    ensures SomeCanWork(s)
  {
    match s.workers[w] {
      case Idle => assert CanWork(s, Take(w));
      case Filtering(todo, _) =>
        assert CanWork(s, if todo == [] then LookUp(w) else Filter(w));
      case Looking(items) =>
        assert CanWork(s, Respond(w, seq(|items|, _ => false)));
      case Checking(left, _, _) =>
        assert CanWork(s, if left == [] then Publish(w) else Check(w));
    }
  }

  /** In every reachable state with workers: left to themselves, they stop after at most as many operations as there
      is work; then all are idle, the queue is empty, and every known key that was in neither the step's batch nor a
      flush has its result or a published answer. */
  lemma AnswersCome(workers: set<nat>, lim: Limits, before: seq<Step>, steps: seq<Step>)
    requires workers != {} && Plays(Started(workers), lim, before)
    requires OnlyWork(Replay(Started(workers), lim, before), steps)
    ensures var s := Replay(Started(workers), lim, before);
            var last := WorkedOn(s, steps);
            && |steps| <= WorkLeft(s)
            && (!SomeCanWork(last) ==>
                  && last.queue == [] && (forall w :: w in last.workers ==> last.workers[w].Idle?)
                  && forall key :: key in last.entries && last.entries[key].result.None? ==>
                       || Published(last.published, key)
                       || Listed(last.batch, key, last.entries[key].token)
                       || InLanes(last.lanes, key, last.entries[key].token))
  {
    RunKeeps(Started(workers), lim, before);
    var s := Replay(Started(workers), lim, before);
    hide Plays, Replay, Inv, SomeCanWork, Listed, Published, InLanes, OnlyWork, WorkedOn, WorkLeft;
    WorkersStay(Started(workers), lim, before);
    WorkersFinish(s, steps);
    var last := WorkedOn(s, steps);
    WorkLeftIsNat(last);
    StillWorkers(s, steps);
    assert last.workers.Keys == workers && last.workers != map[];
    if !SomeCanWork(last) {
      AtRestAnswered(last);
    }
  }

  lemma AtRestAnswered(s: System)
    requires Inv(s) && !SomeCanWork(s) && s.workers != map[]
    ensures s.queue == [] && (forall w :: w in s.workers ==> s.workers[w].Idle?)
    ensures forall key :: key in s.entries && s.entries[key].result.None? ==>
              || Published(s.published, key)
              || Listed(s.batch, key, s.entries[key].token)
              || InLanes(s.lanes, key, s.entries[key].token)
  {
    hide SomeCanWork, Listed, Published, InLanes, Indexed, Tokens;
    forall w | w in s.workers ensures s.workers[w].Idle? && s.queue == [] {
      if !s.workers[w].Idle? || s.queue != [] {
        BusyCanWork(s, w);
      }
    }
    var w := SomeKey(s.workers);
    forall key | key in s.entries && s.entries[key].result.None?
      ensures || Published(s.published, key)
              || Listed(s.batch, key, s.entries[key].token)
              || InLanes(s.lanes, key, s.entries[key].token)
    {
      assert OnItsWay(s, key, s.entries[key].token);
    }
  }

  lemma StepWorkers(s: System, lim: Limits, step: Step)
    ensures After(s, lim, step).workers.Keys == s.workers.Keys
    ensures step.Take? || step.Filter? || step.LookUp? || step.Respond? || step.Check? || step.Publish? ==>
              Worked(s, step, step.worker).workers.Keys == s.workers.Keys
  {
    hide Grouped, Applied, Dropped, WorkerAfter;
  }

  lemma {:induction false} WorkersStay(s: System, lim: Limits, steps: seq<Step>)
    ensures Replay(s, lim, steps).workers.Keys == s.workers.Keys
    decreases |steps|
  {
    hide After;
    if steps != [] {
      StepWorkers(s, lim, steps[0]);
      WorkersStay(After(s, lim, steps[0]), lim, steps[1..]);
    }
  }

  lemma {:induction false} StillWorkers(s: System, steps: seq<Step>)
    requires OnlyWork(s, steps)
    ensures WorkedOn(s, steps).workers.Keys == s.workers.Keys
    decreases |steps|
  {
    hide WorkerAfter;
    if steps != [] {
      StillWorkers(Worked(s, steps[0], steps[0].worker), steps[1..]);
    }
  }
}
