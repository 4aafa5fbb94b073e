/** What the asynchronous lookups answer: with a storage tier that gives one answer per key, every result that is
    not a refusal is the tier's.
 */
module LookupTruth {
  import opened AsyncLookup
  import opened Wrappers

  /** Whether the tier has a key. */
  type Tier = Key -> bool

  predicate AnswersTrue(answers: seq<Answer>, tier: Tier) {
    forall i :: 0 <= i < |answers| ==> answers[i].hit == tier(answers[i].key)
  }

  predicate HitsTrue(items: seq<Item>, hits: seq<bool>, tier: Tier) {
    |hits| == |items| && forall i :: 0 <= i < |hits| ==> hits[i] == tier(items[i].key)
  }

  predicate WorkerTrue(w: Worker, tier: Tier) {
    w.Checking? ==> HitsTrue(w.left, w.hits, tier) && AnswersTrue(w.results, tier)
  }

  /** A result says what the tier has; a miss may be a refusal instead. */
  predicate Rightly(result: Option<bool>, key: Key, tier: Tier, excused: set<Key>) {
    && (result == Some(true) ==> tier(key))
    && (result == Some(false) ==> !tier(key) || key in excused)
  }

  ghost predicate EntriesTrue(entries: map<Key, Entry>, tier: Tier, excused: set<Key>) {
    forall key :: key in entries ==> Rightly(entries[key].result, key, tier, excused)
  }

  ghost predicate AllAnswersTrue(published: seq<seq<Answer>>, tier: Tier) {
    forall i :: 0 <= i < |published| ==> AnswersTrue(published[i], tier)
  }

  ghost predicate WorkersTrue(workers: map<nat, Worker>, tier: Tier) {
    forall w :: w in workers ==> WorkerTrue(workers[w], tier)
  }

  ghost predicate Truthful(s: System, tier: Tier, excused: set<Key>) {
    EntriesTrue(s.entries, tier, excused) && AllAnswersTrue(s.published, tier) && WorkersTrue(s.workers, tier)
  }

  /** A worker's lookup is answered by the tier. */
  predicate Honest(s: System, step: Step, tier: Tier) {
    step.Respond? && step.worker in s.workers && s.workers[step.worker].Looking? ==>
      HitsTrue(s.workers[step.worker].items, step.answers, tier)
  }

  /** The keys that a step makes misses without asking: one too many for the scheduler's step, those of a chunk
      that found the queue full, one that is invalidated. */
  function Excuses(s: System, lim: Limits, step: Step): set<Key> {
    match step
    case Lookup(key, _) => if key !in s.entries && |s.batch| >= lim.keysPerStep then {key} else {}
    case Post(accepted) =>
      if accepted || s.lanes == [] then {}
      else set item | item in First(s.lanes[0].rest, lim.keysPerBatch) && item.token in s.live :: item.key
    case Invalidate(key) => {key}
    case _ => {}
  }

  /** An excuse lapses when its key is forgotten. */
  function ExcusedAfter(s: System, lim: Limits, step: Step, excused: set<Key>): set<Key> {
    (excused + Excuses(s, lim, step)) * After(s, lim, step).entries.Keys
  }

  ghost predicate AllHonest(s: System, lim: Limits, steps: seq<Step>, tier: Tier)
    decreases |steps|
  {
    steps == [] || (Honest(s, steps[0], tier) && AllHonest(After(s, lim, steps[0]), lim, steps[1..], tier))
  }

  function ExcusedBy(s: System, lim: Limits, steps: seq<Step>, excused: set<Key>): set<Key>
    decreases |steps|
  {
    if steps == [] then excused
    else ExcusedBy(After(s, lim, steps[0]), lim, steps[1..], ExcusedAfter(s, lim, steps[0], excused))
  }

  /** The last of these answers about a key. */
  function LastAnswer(answers: seq<Answer>, key: Key): Option<bool> {
    if answers == [] then None
    else if answers[|answers| - 1].key == key then Some(answers[|answers| - 1].hit)
    else LastAnswer(answers[..|answers| - 1], key)
  }

  lemma {:induction false} LastAnswerTail(answers: seq<Answer>, key: Key)
    requires answers != []
    ensures LastAnswer(answers, key) ==
              if LastAnswer(answers[1..], key).Some? then LastAnswer(answers[1..], key)
              else if answers[0].key == key then Some(answers[0].hit) else None
    decreases |answers|
  {
    var n := |answers|;
    if n == 1 {
      assert answers[..0] == [] && answers[1..] == [];
    } else {
      assert answers[1..][n - 2] == answers[n - 1] && answers[1..][..n - 2] == answers[..n - 1][1..];
      LastAnswerTail(answers[..n - 1], key);
    }
  }

  /** Applying answers gives each known key the last one about it. */
  lemma {:induction false} AppliedLast(entries: map<Key, Entry>, answers: seq<Answer>, key: Key)
    requires key in entries
    ensures key in Applied(entries, answers)
    ensures Applied(entries, answers)[key].result ==
              if LastAnswer(answers, key).Some? then LastAnswer(answers, key) else entries[key].result
    decreases |answers|
  {
    if answers != [] {
      var answer := answers[0];
      var next := if answer.key in entries
                  then entries[answer.key := entries[answer.key].(result := Some(answer.hit))] else entries;
      AppliedLast(next, answers[1..], key);
      LastAnswerTail(answers, key);
    }
  }

  lemma {:induction false} LastAnswerConcat(a: seq<Answer>, b: seq<Answer>, key: Key)
    ensures LastAnswer(a + b, key) == if LastAnswer(b, key).Some? then LastAnswer(b, key) else LastAnswer(a, key)
    decreases |b|
  {
    if b == [] {
      assert a + b == a;
    } else {
      var n := |b| - 1;
      assert (a + b)[..|a + b| - 1] == a + b[..n];
      LastAnswerConcat(a, b[..n], key);
    }
  }

  lemma {:induction false} LastIsTrue(answers: seq<Answer>, key: Key, tier: Tier)
    requires AnswersTrue(answers, tier)
    ensures LastAnswer(answers, key).Some? ==> LastAnswer(answers, key) == Some(tier(key))
    decreases |answers|
  {
    if answers != [] {
      LastIsTrue(answers[..|answers| - 1], key, tier);
    }
  }

  /** Applying answers of the tier leaves the results right. */
  lemma AppliedTrue(entries: map<Key, Entry>, answers: seq<Answer>, tier: Tier, excused: set<Key>)
    requires EntriesTrue(entries, tier, excused) && AnswersTrue(answers, tier)
    ensures EntriesTrue(Applied(entries, answers), tier, excused * Applied(entries, answers).Keys)
  {
    var next := Applied(entries, answers);
    forall key | key in next ensures Rightly(next[key].result, key, tier, excused * next.Keys) {
      AppliedEntry(entries, answers, key);
      AppliedLast(entries, answers, key);
      LastIsTrue(answers, key, tier);
    }
  }

  /** The keys of a dropped chunk that are made misses; no other result changes. */
  lemma {:induction false} DroppedResult(entries: map<Key, Entry>, chunk: seq<Item>, live: set<nat>, key: Key)
    ensures key in Dropped(entries, chunk, live) <==> key in entries
    ensures key in entries ==>
              var result := Dropped(entries, chunk, live)[key].result;
              if exists i :: 0 <= i < |chunk| && chunk[i].key == key && chunk[i].token in live
              then result == Some(false) else result == entries[key].result
    decreases |chunk|
  {
    if chunk != [] {
      var item := chunk[0];
      var next := if item.key in entries && item.token in live
                  then entries[item.key := entries[item.key].(result := Some(false))] else entries;
      DroppedResult(next, chunk[1..], live, key);
      forall i | 0 <= i < |chunk[1..]| ensures chunk[1..][i] == chunk[i + 1] {
      }
      if exists i :: 0 <= i < |chunk| && chunk[i].key == key && chunk[i].token in live {
        var i :| 0 <= i < |chunk| && chunk[i].key == key && chunk[i].token in live;
        assert i > 0 ==> chunk[1..][i - 1] == chunk[i];
      }
    }
  }

  lemma DroppedTrue(entries: map<Key, Entry>, chunk: seq<Item>, live: set<nat>, tier: Tier, excused: set<Key>)
    requires EntriesTrue(entries, tier, excused)
    ensures var next := Dropped(entries, chunk, live);
            var refused := set item | item in chunk && item.token in live :: item.key;
            EntriesTrue(next, tier, (excused + refused) * next.Keys)
  {
    var next := Dropped(entries, chunk, live);
    var refused := set item | item in chunk && item.token in live :: item.key;
    forall key | key in next ensures Rightly(next[key].result, key, tier, (excused + refused) * next.Keys) {
      DroppedResult(entries, chunk, live, key);
    }
  }

  lemma PostTrue(s: System, lim: Limits, accepted: bool, tier: Tier, excused: set<Key>)
    requires Truthful(s, tier, excused) && Can(s, lim, Post(accepted))
    ensures Truthful(Posted(s, lim, accepted), tier, ExcusedAfter(s, lim, Post(accepted), excused))
  {
    hide Dropped, First, Rest, AllAnswersTrue, WorkersTrue, Rightly;
    var chunk := First(s.lanes[0].rest, lim.keysPerBatch);
    if s.lanes[0].rest == [] {
      NothingFirst(lim.keysPerBatch);
      EntriesMore(s.entries, s.entries, tier, excused, ExcusedAfter(s, lim, Post(accepted), excused));
    } else if accepted {
      EntriesMore(s.entries, s.entries, tier, excused, ExcusedAfter(s, lim, Post(accepted), excused));
    } else {
      DroppedTrue(s.entries, chunk, s.live, tier, excused);
    }
  }

  lemma NothingFirst(size: nat)
    ensures First([], size) == []
  {
  }

  /** As many excuses for the keys known, or more. */
  lemma EntriesMore(was: map<Key, Entry>, now: map<Key, Entry>, tier: Tier, excused: set<Key>, more: set<Key>)
    requires EntriesTrue(was, tier, excused) && excused * now.Keys <= more
    requires forall key :: key in now && key in was ==> now[key].result == was[key].result
    requires forall key :: key in now && key !in was ==>
               now[key].result == None || (now[key].result == Some(false) && key in more)
    ensures EntriesTrue(now, tier, more)
  {
    forall key | key in now ensures Rightly(now[key].result, key, tier, more) {
      assert key in was ==> Rightly(was[key].result, key, tier, excused);
    }
  }

  lemma SchedulerTrue(s: System, lim: Limits, step: Step, tier: Tier, excused: set<Key>)
    requires Truthful(s, tier, excused) && Can(s, lim, step)
    requires step.Lookup? || step.BeginFlush? || step.Forget? || step.Invalidate?
    ensures Truthful(After(s, lim, step), tier, ExcusedAfter(s, lim, step, excused))
  {
    hide Rightly, Grouped, AllAnswersTrue, WorkersTrue, KeysOf;
    var next := After(s, lim, step);
    if step.Invalidate? {
      InvalidatedTrue(s.entries, step.key, tier, excused, next.entries, ExcusedAfter(s, lim, step, excused));
    } else {
      EntriesMore(s.entries, next.entries, tier, excused, ExcusedAfter(s, lim, step, excused));
    }
  }

  lemma InvalidatedTrue(was: map<Key, Entry>, key: Key, tier: Tier, excused: set<Key>, now: map<Key, Entry>,
                        more: set<Key>)
    requires EntriesTrue(was, tier, excused) && more == (excused + {key}) * now.Keys
    requires now == if key in was then was[key := was[key].(result := Some(false))] else was
    ensures EntriesTrue(now, tier, more)
  {
    forall k | k in now ensures Rightly(now[k].result, k, tier, more) {
      assert Rightly(was[k].result, k, tier, excused);
    }
  }

  lemma WorkerStaysTrue(w: Worker, queue: seq<seq<Item>>, live: set<nat>, step: Step, tier: Tier)
    requires WorkerTrue(w, tier)
    requires step.Respond? && w.Looking? ==> HitsTrue(w.items, step.answers, tier)
    ensures WorkerTrue(WorkerAfter(w, queue, live, step), tier)
  {
  }

  lemma WorkTrue(s: System, lim: Limits, step: Step, tier: Tier, excused: set<Key>)
    requires Truthful(s, tier, excused) && CanWork(s, step) && Honest(s, step, tier)
    ensures Truthful(After(s, lim, step), tier, ExcusedAfter(s, lim, step, excused))
  {
    hide WorkerAfter, EntriesTrue, HitsTrue, AnswersTrue;
    var w, next := step.worker, Worked(s, step, step.worker);
    WorkerStaysTrue(s.workers[w], s.queue, s.live, step, tier);
    SameEntriesTrue(s.entries, tier, excused);
    assert After(s, lim, step) == next && next.entries == s.entries;
    assert ExcusedAfter(s, lim, step, excused) == excused * s.entries.Keys;
  }

  lemma SameEntriesTrue(entries: map<Key, Entry>, tier: Tier, excused: set<Key>)
    requires EntriesTrue(entries, tier, excused)
    ensures EntriesTrue(entries, tier, excused * entries.Keys)
  {
    EntriesMore(entries, entries, tier, excused, excused * entries.Keys);
  }

  lemma DrainTrue(s: System, lim: Limits, tier: Tier, excused: set<Key>)
    requires Truthful(s, tier, excused) && Can(s, lim, Drain)
    ensures Truthful(After(s, lim, Drain), tier, ExcusedAfter(s, lim, Drain, excused))
  {
    hide Applied, EntriesTrue, AnswersTrue, WorkersTrue;
    AppliedTrue(s.entries, s.published[0], tier, excused);
    assert excused + {} == excused;
  }

  lemma StepTruthful(s: System, lim: Limits, step: Step, tier: Tier, excused: set<Key>)
    requires Truthful(s, tier, excused) && Can(s, lim, step) && Honest(s, step, tier)
    ensures Truthful(After(s, lim, step), tier, ExcusedAfter(s, lim, step, excused))
  {
    hide Truthful, Honest, CanWork, ExcusedAfter, LookedUp, Posted, Forgotten, Worked;
    match step {
      case Drain => DrainTrue(s, lim, tier, excused);
      case Post(accepted) => PostTrue(s, lim, accepted, tier, excused);
      case Lookup(_, _) => SchedulerTrue(s, lim, step, tier, excused);
      case BeginFlush => SchedulerTrue(s, lim, step, tier, excused);
      case Forget(_, _) => SchedulerTrue(s, lim, step, tier, excused);
      case Invalidate(_) => SchedulerTrue(s, lim, step, tier, excused);
      case _ => WorkTrue(s, lim, step, tier, excused);
    }
  }

  lemma {:induction false} RunTruthful(s: System, lim: Limits, steps: seq<Step>, tier: Tier, excused: set<Key>)
    requires Truthful(s, tier, excused) && Plays(s, lim, steps) && AllHonest(s, lim, steps, tier)
    ensures Truthful(Replay(s, lim, steps), tier, ExcusedBy(s, lim, steps, excused))
    decreases |steps|
  {
    hide Truthful, Honest, Can, After, ExcusedAfter;
    if steps != [] {
      StepTruthful(s, lim, steps[0], tier, excused);
      RunTruthful(After(s, lim, steps[0]), lim, steps[1..], tier, ExcusedAfter(s, lim, steps[0], excused));
    }
  }

  /** What any method of the manager does, being such a run, it does rightly. */
  ghost predicate StaysTrue(was: System, lim: Limits, steps: seq<Step>, now: System) {
    forall tier: Tier, excused: set<Key> :: Truthful(was, tier, excused) && AllHonest(was, lim, steps, tier) ==>
      Truthful(now, tier, ExcusedBy(was, lim, steps, excused))
  }

  lemma RunStaysTrue(was: System, lim: Limits, steps: seq<Step>, now: System)
    requires Plays(was, lim, steps) && Replay(was, lim, steps) == now
    ensures StaysTrue(was, lim, steps, now)
  {
    hide Truthful, Plays, Replay, AllHonest, ExcusedBy;
    forall tier: Tier, excused: set<Key> | Truthful(was, tier, excused) && AllHonest(was, lim, steps, tier)
      ensures Truthful(now, tier, ExcusedBy(was, lim, steps, excused))
    {
      RunTruthful(was, lim, steps, tier, excused);
    }
  }

  /** Over every run in which the tier gives one answer per key: a hit is reported only of a key it has, and a miss
      only of one it has not, unless the lookup of the key, since the key became known, was refused by the step's
      limit or a full queue, or the key was invalidated. */
  lemma ResultsTrue(workers: set<nat>, lim: Limits, steps: seq<Step>, tier: Tier, key: Key)
    requires Plays(Started(workers), lim, steps) && AllHonest(Started(workers), lim, steps, tier)
    requires key in Replay(Started(workers), lim, steps).entries
    ensures var result := Replay(Started(workers), lim, steps).entries[key].result;
            && (result == Some(true) ==> tier(key))
            && (result == Some(false) ==> !tier(key) || key in ExcusedBy(Started(workers), lim, steps, {}))
  {
    RunTruthful(Started(workers), lim, steps, tier, {});
  }
}
