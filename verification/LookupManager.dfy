/** The asynchronous lookup manager: scheduler-owned dictionaries, the queues it shares with its
    workers and the workers' own loop.

    Workers may move before every queue operation. Every method is a sequence of the steps of
    `AsyncLookup`, listed in its ghost result.
 */
module LookupManager {
  import opened AsyncLookup
  import opened LookupRotation
  import opened LookupTruth
  import opened Wrappers

  /** `steps`, all allowed in their turn, lead from one state to the other. */
  ghost predicate Evolved(was: System, lim: Limits, steps: seq<Step>, now: System) {
    Plays(was, lim, steps) && Replay(was, lim, steps) == now
  }

  lemma Unevolved(s: System, lim: Limits)
    ensures Evolved(s, lim, [], s)
  {
  }

  lemma {:induction false} EvolveOn(was: System, lim: Limits, before: seq<Step>, mid: System, steps: seq<Step>,
                                    now: System)
    requires Evolved(was, lim, before, mid) && Evolved(mid, lim, steps, now)
    ensures Evolved(was, lim, before + steps, now)
    decreases |before|
  {
    hide Can, After;
    if before == [] {
      assert [] + steps == steps;
    } else {
      assert (before + steps)[1..] == before[1..] + steps;
      EvolveOn(After(was, lim, before[0]), lim, before[1..], mid, steps, now);
    }
  }

  lemma EvolveStep(was: System, lim: Limits, steps: seq<Step>, now: System, step: Step)
    requires Evolved(was, lim, steps, now) && Can(now, lim, step)
    ensures Evolved(was, lim, steps + [step], After(now, lim, step))
  {
    hide Can, After;
    assert [step][0] == step && [step][1..] == [];
    var next := After(now, lim, step);
    assert Plays(next, lim, []) && Replay(next, lim, []) == next;
    assert Plays(now, lim, [step]) && Replay(now, lim, [step]) == next;
    EvolveOn(was, lim, steps, now, [step], After(now, lim, step));
  }

  /** What a method reports of a key is the tier's answer, or a refusal, if the workers' answers are the tier's. */
  ghost predicate Reports(was: System, lim: Limits, steps: seq<Step>, key: Key, result: Option<bool>) {
    forall tier: Tier, excused: set<Key> :: Truthful(was, tier, excused) && AllHonest(was, lim, steps, tier) ==>
      && (result == Some(true) ==> tier(key))
      && (result == Some(false) ==> !tier(key) || key in ExcusedBy(was, lim, steps, excused))
  }

  lemma EvolvedReports(was: System, lim: Limits, steps: seq<Step>, now: System, key: Key)
    requires Evolved(was, lim, steps, now) && key in now.entries
    ensures Reports(was, lim, steps, key, now.entries[key].result)
  {
    hide Plays, Replay, AllHonest, ExcusedBy, WorkersTrue, AllAnswersTrue;
    forall tier: Tier, excused: set<Key> | Truthful(was, tier, excused) && AllHonest(was, lim, steps, tier)
      ensures Rightly(now.entries[key].result, key, tier, ExcusedBy(was, lim, steps, excused))
    {
      RunTruthful(was, lim, steps, tier, excused);
    }
  }

  lemma EvolvedKeeps(was: System, lim: Limits, steps: seq<Step>, now: System)
    requires Evolved(was, lim, steps, now) && Inv(was)
    ensures Inv(now)
  {
    hide Can, After, Inv;
    RunKeeps(was, lim, steps);
  }

  lemma WorkIsStep(s: System, seen: System, lanes: seq<Lane>, step: Step)
    requires CanWork(s.(lanes := []), step) && seen == Worked(s.(lanes := []), step, step.worker)
    ensures forall lim: Limits :: Can(s, lim, step) && After(s, lim, step) == seen.(lanes := s.lanes)
  {
  }

  lemma DrainIsStep(was: System, lim: Limits, steps: seq<Step>, now: System)
    requires Evolved(was, lim, steps, now) && now.published != []
    ensures Evolved(was, lim, steps + [Drain],
                    now.(entries := Applied(now.entries, now.published[0]), published := now.published[1..]))
  {
    EvolveStep(was, lim, steps, now, Drain);
  }

  lemma SameKeysRefl(entries: map<Key, Entry>)
    ensures SameKeys(entries, entries)
  {
  }

  lemma SameKeysApplied(was: map<Key, Entry>, entries: map<Key, Entry>, answers: seq<Answer>)
    requires SameKeys(was, entries)
    ensures SameKeys(was, Applied(entries, answers))
  {
    forall key ensures key in Applied(entries, answers) <==> key in entries
      ensures key in entries ==> Applied(entries, answers)[key].(result := None) == entries[key].(result := None)
    {
      AppliedEntry(entries, answers, key);
    }
  }

  function Flat(published: seq<seq<Answer>>): seq<Answer> {
    if published == [] then [] else published[0] + Flat(published[1..])
  }

  lemma FlatFirst(published: seq<seq<Answer>>)
    requires published != []
    ensures Flat(published) == published[0] + Flat(published[1..])
  {
  }

  lemma FlatNone()
    ensures Flat([]) == []
  {
  }

  /** Each key known has the last answer about it, if there is one, and its old result otherwise. */
  ghost predicate Overlaid(was: map<Key, Entry>, answers: seq<Answer>, now: map<Key, Entry>) {
    && was.Keys == now.Keys
    && forall key :: key in now ==>
         now[key].result ==
           if LastAnswer(answers, key).Some? then LastAnswer(answers, key) else was[key].result
  }

  lemma OverlaidNone(entries: map<Key, Entry>)
    ensures Overlaid(entries, [], entries)
  {
  }

  lemma OverlaidOn(was: map<Key, Entry>, answers: seq<Answer>, now: map<Key, Entry>, more: seq<Answer>)
    requires Overlaid(was, answers, now)
    ensures Overlaid(was, answers + more, Applied(now, more))
  {
    forall key ensures key in Applied(now, more) <==> key in now {
      AppliedEntry(now, more, key);
    }
    forall key | key in now
      ensures LastAnswer(answers + more, key) ==
                if LastAnswer(more, key).Some? then LastAnswer(more, key) else LastAnswer(answers, key)
      ensures Applied(now, more)[key].result ==
                if LastAnswer(more, key).Some? then LastAnswer(more, key) else now[key].result
    {
      LastAnswerConcat(answers, more, key);
      AppliedLast(now, more, key);
    }
  }

  lemma EvolvedStaysTrue(was: System, lim: Limits, steps: seq<Step>, now: System)
    requires Evolved(was, lim, steps, now)
    ensures StaysTrue(was, lim, steps, now)
  {
    RunStaysTrue(was, lim, steps, now);
  }

  lemma LookupIsStep(was: System, lim: Limits, steps: seq<Step>, now: System, key: Key, req: string)
    requires Evolved(was, lim, steps, now)
    ensures Evolved(was, lim, steps + [Lookup(key, req)], LookedUp(now, lim, key, req))
  {
    EvolveStep(was, lim, steps, now, Lookup(key, req));
  }

  lemma FlushIsStep(now: System, lim: Limits)
    requires now.lanes == []
    ensures Evolved(now, lim, [BeginFlush], now.(batch := [], lanes := Grouped(now.batch)))
  {
    Unevolved(now, lim);
    EvolveStep(now, lim, [], now, BeginFlush);
    assert [] + [BeginFlush] == [BeginFlush];
  }

  /** A request's interest is gone from every key but those `left`; keys of its alone are gone. */
  ghost predicate ForgottenSoFar(was: map<Key, Entry>, now: map<Key, Entry>, left: set<Key>, req: string) {
    && (forall key :: key in now ==> key in was)
    && forall key :: key in was ==>
         if req !in was[key].requests || key in left then key in now && now[key] == was[key]
         else if was[key].requests == {req} then key !in now
         else key in now && now[key] == was[key].(requests := was[key].requests - {req})
  }

  lemma ForgetNone(entries: map<Key, Entry>, reqKeys: map<string, set<Key>>, req: string)
    requires Indexed(entries, reqKeys)
    ensures ForgottenSoFar(entries, entries, KeysOf(reqKeys, req), req)
  {
  }

  lemma ForgetNext(was: map<Key, Entry>, s: System, req: string, key: Key)
    requires Indexed(s.entries, s.reqKeys) && key in KeysOf(s.reqKeys, req)
    requires ForgottenSoFar(was, s.entries, KeysOf(s.reqKeys, req), req)
    ensures var next := Forgotten(s, req, key);
            && KeysOf(next.reqKeys, req) == KeysOf(s.reqKeys, req) - {key}
            && ForgottenSoFar(was, next.entries, KeysOf(next.reqKeys, req), req)
  {
    assert key in s.entries && req in s.entries[key].requests;
    assert s.entries[key] == was[key];
    if was[key].requests - {req} == {} {
      assert was[key].requests == {req};
    }
  }

  lemma ForgetIsStep(was: System, lim: Limits, steps: seq<Step>, now: System, req: string, key: Key)
    requires Evolved(was, lim, steps, now) && key in KeysOf(now.reqKeys, req)
    ensures Evolved(was, lim, steps + [Forget(req, key)], Forgotten(now, req, key))
  {
    EvolveStep(was, lim, steps, now, Forget(req, key));
  }

  /** How many keys the refused chunks had. */
  function Refused(posts: seq<Lane>, accepted: seq<bool>): nat
    requires |posts| == |accepted|
  {
    if posts == [] then 0
    else
      var last := |posts| - 1;
      Refused(posts[..last], accepted[..last]) + if accepted[last] then 0 else |posts[last].rest|
  }

  lemma RefusedSnoc(posts: seq<Lane>, accepted: seq<bool>, post: Lane, ok: bool)
    requires |posts| == |accepted|
    ensures Refused(posts + [post], accepted + [ok]) == Refused(posts, accepted) + if ok then 0 else |post.rest|
  {
    assert (posts + [post])[..|posts|] == posts && (accepted + [ok])[..|posts|] == accepted;
  }

  lemma NothingRefused()
    ensures Refused([], []) == 0
  {
  }

  /** Exactly the first `room` chunks were accepted. */
  predicate FirstRoom(accepted: seq<bool>, room: int) {
    forall i :: 0 <= i < |accepted| ==> (accepted[i] <==> i < room)
  }

  /** How many of a request's chunks were accepted. */
  function Admitted(posts: seq<Lane>, accepted: seq<bool>, req: string): nat
    requires |posts| == |accepted|
  {
    if posts == [] then 0
    else (if accepted[0] && posts[0].req == req then 1 else 0) + Admitted(posts[1..], accepted[1..], req)
  }

  /** Two requests' accepted chunks differ by at most one, unless all chunks of the one with fewer were accepted. */
  ghost predicate Fair(posts: seq<Lane>, accepted: seq<bool>)
    requires |posts| == |accepted|
  {
    forall a, b :: Admitted(posts, accepted, a) <= Admitted(posts, accepted, b) + 1
                   || Admitted(posts, accepted, b) == Count(posts, b)
  }

  lemma {:induction false} AdmittedIsPrefix(posts: seq<Lane>, accepted: seq<bool>, room: int, n: nat, req: string)
    requires |posts| == |accepted| && FirstRoom(accepted, room)
    requires n == if room < 0 then 0 else if room < |posts| then room else |posts|
    ensures Admitted(posts, accepted, req) == Count(posts[..n], req)
  {
    if posts == [] {
      assert posts[..n] == [];
    } else if n == 0 {
      AdmittedIsPrefix(posts[1..], accepted[1..], room - 1, 0, req);
      assert posts[1..][..0] == posts[..0] == [];
    } else {
      AdmittedIsPrefix(posts[1..], accepted[1..], room - 1, n - 1, req);
      assert posts[..n][1..] == posts[1..][..n - 1] && posts[..n][0] == posts[0];
    }
  }

  /** With no worker taking chunks meanwhile, a flush admits the requests' chunks fairly. */
  lemma AdmittedFairly(batch: seq<Item>, size: nat, accepted: seq<bool>, room: int)
    requires size > 0 && |accepted| == |Posts(Grouped(batch), size)| && FirstRoom(accepted, room)
    ensures Fair(Posts(Grouped(batch), size), accepted)
  {
    hide Posts, Grouped, FirstRoom, Admitted, Count;
    var lanes, posts := Grouped(batch), Posts(Grouped(batch), size);
    var n := if room < 0 then 0 else if room < |posts| then room else |posts|;
    forall a, b ensures Admitted(posts, accepted, a) <= Admitted(posts, accepted, b) + 1
                        || Admitted(posts, accepted, b) == Count(posts, b)
    {
      GroupedRest(batch, a);
      AdmittedIsPrefix(posts, accepted, room, n, a);
      AdmittedIsPrefix(posts, accepted, room, n, b);
      PostsFair(lanes, size, n, a, b);
    }
  }

  predicate RoomLeft(accepted: seq<bool>, before: nat, now: nat, capacity: nat) {
    && FirstRoom(accepted, capacity - before)
    && now == before + if |accepted| <= capacity - before then |accepted|
                       else if before <= capacity then capacity - before else 0
  }

  lemma RoomAtFirst(before: nat, capacity: nat)
    ensures RoomLeft([], before, before, capacity)
  {
  }

  lemma RoomIsFirst(accepted: seq<bool>, before: nat, now: nat, capacity: nat)
    ensures RoomLeft(accepted, before, now, capacity) ==> FirstRoom(accepted, capacity - before)
  {
  }

  lemma RoomStep(accepted: seq<bool>, before: nat, now: nat, capacity: nat, ok: bool)
    requires RoomLeft(accepted, before, now, capacity) && ok == (now < capacity)
    ensures RoomLeft(accepted + [ok], before, if ok then now + 1 else now, capacity)
  {
  }

  class AsyncLookupManager {
    const limits: Limits
    var lookupState: map<Key, Entry>
    var reqKeys: map<string, set<Key>>
    var lookupBatch: seq<Item>
    var lookupQueue: seq<seq<Item>>
    var pendingResults: seq<seq<Answer>>
    var needToDrain: bool
    var droppedKeys: nat
    var cancelledKeys: nat
    var workers: map<nat, Worker>
    var live: set<nat>
    var nextToken: nat
    /** What the workers will do, in bursts between the scheduler's operations. */
    var future: seq<seq<Step>>

    function View(lanes: seq<Lane>): System
      reads this
    {
      System(lookupState, reqKeys, lookupBatch, lanes, lookupQueue, pendingResults, workers, live, nextToken)
    }

    constructor (limits: Limits, workerIds: set<nat>, future: seq<seq<Step>>)
      requires limits.capacity > 0 && limits.keysPerStep > 0 && limits.keysPerBatch > 0 && workerIds != {}
      ensures View([]) == Started(workerIds) && this.limits == limits && !needToDrain
    {
      this.limits, this.future := limits, future;
      lookupState, reqKeys, lookupBatch, lookupQueue, pendingResults := map[], map[], [], [], [];
      needToDrain, droppedKeys, cancelledKeys, live, nextToken := false, 0, 0, {}, 0;
      workers := map w | w in workerIds :: Idle;
    }

    /** One operation of a worker's loop. */
    method WorkerStep(step: Step)
      requires CanWork(View([]), step)
      modifies this`workers, this`lookupQueue, this`pendingResults
      ensures View([]) == Worked(old(View([])), step, step.worker)
    {
      var w := step.worker;
      match step {
        case Take(_) =>
          workers := workers[w := Filtering(lookupQueue[0], [])];
          lookupQueue := lookupQueue[1..];
        case Filter(_) =>
          var todo, kept := workers[w].todo, workers[w].kept;
          workers := workers[w := Filtering(todo[1..], if todo[0].token in live then kept + [todo[0]] else kept)];
        case LookUp(_) =>
          var kept := workers[w].kept;
          workers := workers[w := if kept == [] then Idle else Looking(kept)];
        case Respond(_, answers) =>
          workers := workers[w := Checking(workers[w].items, answers, [])];
        case Check(_) =>
          var left, hits, results := workers[w].left, workers[w].hits, workers[w].results;
          if left[0].token in live {
            results := results + [Answer(left[0].key, hits[0])];
          }
          workers := workers[w := Checking(left[1..], hits[1..], results)];
        case Publish(_) =>
          if workers[w].results != [] {
            pendingResults := pendingResults + [workers[w].results];
          }
          workers := workers[w := Idle];
      }
    }

    /** The workers run a burst of steps, as far as they are able to. */
    method Interleave(ghost lanes: seq<Lane>) returns (ghost steps: seq<Step>)
      modifies this`workers, this`lookupQueue, this`pendingResults, this`future
      ensures Evolved(old(View(lanes)), limits, steps, View(lanes))
      ensures |future| <= |old(future)| && (|future| == |old(future)| ==> View(lanes) == old(View(lanes)))
      ensures old(future) == [] ==> future == []
    {
      hide Evolved, Can, After;
      Unevolved(View(lanes), limits);
      steps := [];
      if future == [] {
        return;
      }
      var burst := future[0];
      future := future[1..];
      for i := 0 to |burst|
        invariant |future| == |old(future)| - 1
        invariant Evolved(old(View(lanes)), limits, steps, View(lanes))
      {
        if CanWork(View([]), burst[i]) {
          ghost var before := View(lanes);
          WorkerStep(burst[i]);
          WorkIsStep(before, View([]), lanes, burst[i]);
          EvolveStep(old(View(lanes)), limits, steps, before, burst[i]);
          steps := steps + [burst[i]];
        }
      }
    }

    /** Apply everything the workers have published. */
    method DrainResults() returns (ghost steps: seq<Step>)
      modifies this`lookupState, this`workers, this`lookupQueue, this`pendingResults, this`future
      ensures Evolved(old(View([])), limits, steps, View([]))
      ensures SameKeys(old(lookupState), lookupState) && pendingResults == []
      ensures StaysTrue(old(View([])), limits, steps, View([]))
      ensures old(future) == [] ==> Overlaid(old(lookupState), Flat(old(pendingResults)), lookupState)
    {
      hide Evolved, Can, After, SameKeys, Applied, Overlaid, Flat, StaysTrue;
      SameKeysRefl(lookupState);
      OverlaidNone(lookupState);
      steps := Interleave([]);
      ghost var seen: seq<Answer> := [];
      assert seen + Flat(pendingResults) == Flat(pendingResults);
      while pendingResults != []
        invariant Evolved(old(View([])), limits, steps, View([]))
        invariant SameKeys(old(lookupState), lookupState)
        invariant old(future) == [] ==>
                    && future == [] && seen + Flat(pendingResults) == Flat(old(pendingResults))
                    && Overlaid(old(lookupState), seen, lookupState)
        decreases |future|, |pendingResults|
      {
        if old(future) == [] {
          OverlaidOn(old(lookupState), seen, lookupState, pendingResults[0]);
          FlatFirst(pendingResults);
          assert seen + (pendingResults[0] + Flat(pendingResults[1..])) ==
              seen + pendingResults[0] + Flat(pendingResults[1..]);
          seen := seen + pendingResults[0];
        }
        DrainIsStep(old(View([])), limits, steps, View([]));
        SameKeysApplied(old(lookupState), lookupState, pendingResults[0]);
        var results := pendingResults[0];
        pendingResults := pendingResults[1..];
        ApplyResults(results);
        steps := steps + [Drain];
        ghost var drained := View([]);
        ghost var moves := Interleave([]);
        EvolveOn(old(View([])), limits, steps, drained, moves, View([]));
        steps := steps + moves;
      }
      FlatNone();
      assert seen + [] == seen;
      EvolvedStaysTrue(old(View([])), limits, steps, View([]));
    }

    method ApplyResults(results: seq<Answer>)
      modifies this`lookupState
      ensures lookupState == Applied(old(lookupState), results)
    {
      var i := 0;
      assert results[0..] == results;
      while i < |results|
        invariant 0 <= i <= |results|
        invariant Applied(lookupState, results[i..]) == Applied(old(lookupState), results)
      {
        var answer := results[i];
        assert results[i..][1..] == results[i + 1..];
        if answer.key in lookupState {
          lookupState := lookupState[answer.key := lookupState[answer.key].(result := Some(answer.hit))];
        }
        i := i + 1;
      }
    }

    /** The result of a key, absent while it is not available; a new key joins the step's batch, or
        is a miss when the step already has all it may. */
    method LookUpKey(key: Key, req: string) returns (result: Option<bool>, ghost steps: seq<Step>)
      modifies this
      ensures Evolved(old(View([])), limits, steps, View([]))
      ensures key in lookupState && req in lookupState[key].requests && result == lookupState[key].result
      ensures key !in old(lookupState) ==>
                result == if |old(lookupBatch)| < limits.keysPerStep then None else Some(false)
      ensures lookupState.Keys == old(lookupState.Keys) + {key}
      ensures lookupBatch == old(lookupBatch) +
                if key !in old(lookupState) && |old(lookupBatch)| < limits.keysPerStep
                then [Item(key, req, old(nextToken))] else []
      ensures !needToDrain
      ensures Reports(old(View([])), limits, steps, key, result)
      ensures old(future) == [] && key in old(lookupState) ==>
                result == if old(needToDrain) && LastAnswer(Flat(old(pendingResults)), key).Some?
                          then LastAnswer(Flat(old(pendingResults)), key) else old(lookupState)[key].result
    {
      hide Evolved, Can, After, Applied, LookedUp, Reports, Flat, LastAnswer;
      Unevolved(View([]), limits);
      steps := [];
      SameKeysRefl(lookupState);
      if needToDrain {
        steps := DrainResults();
        needToDrain := false;
      }
      LookupIsStep(old(View([])), limits, steps, View([]), key, req);
      steps := steps + [Lookup(key, req)];
      result := Register(key, req);
      EvolvedReports(old(View([])), limits, steps, View([]), key);
    }

    /** Record the request's interest in a key, queueing the key if it is new. */
    method Register(key: Key, req: string) returns (result: Option<bool>)
      modifies this`lookupState, this`lookupBatch, this`droppedKeys, this`live, this`nextToken, this`reqKeys
      ensures View([]) == LookedUp(old(View([])), limits, key, req)
      ensures key in lookupState && req in lookupState[key].requests && result == lookupState[key].result
      ensures key !in old(lookupState) ==>
                result == if |old(lookupBatch)| < limits.keysPerStep then None else Some(false)
      ensures key in old(lookupState) ==> result == old(lookupState)[key].result
      ensures lookupState.Keys == old(lookupState.Keys) + {key}
      ensures lookupBatch == old(lookupBatch) +
                if key !in old(lookupState) && |old(lookupBatch)| < limits.keysPerStep
                then [Item(key, req, old(nextToken))] else []
    {
      var known, queued := key in lookupState, |lookupBatch| < limits.keysPerStep;
      var entry := if known then lookupState[key] else Entry(if queued then None else Some(false), {}, nextToken);
      if !known {
        if queued {
          lookupBatch := lookupBatch + [Item(key, req, nextToken)];
        } else {
          droppedKeys := droppedKeys + 1;
        }
        live, nextToken := live + {nextToken}, nextToken + 1;
      }
      lookupState := lookupState[key := entry.(requests := entry.requests + {req})];
      reqKeys := reqKeys[req := KeysOf(reqKeys, req) + {key}];
      result := entry.result;
    }

    /** Post the step's keys in small chunks, the requests taking turns; a chunk that finds the queue
        full makes its keys misses. */
    method Flush() returns (ghost accepted: seq<bool>, ghost steps: seq<Step>)
      modifies this`lookupState, this`lookupBatch, this`lookupQueue, this`pendingResults, this`needToDrain
      modifies this`droppedKeys, this`workers, this`future
      requires limits.keysPerBatch > 0
      ensures Evolved(old(View([])), limits, steps, View([]))
      ensures lookupBatch == [] && needToDrain
      ensures |accepted| == |Posts(Grouped(old(lookupBatch)), limits.keysPerBatch)|
      ensures droppedKeys == old(droppedKeys) + Refused(Posts(Grouped(old(lookupBatch)), limits.keysPerBatch), accepted)
      ensures old(future) == [] ==> FirstRoom(accepted, limits.capacity - |old(lookupQueue)|)
      ensures old(future) == [] ==> Fair(Posts(Grouped(old(lookupBatch)), limits.keysPerBatch), accepted)
    {
      hide Evolved, Can, After, Posts, Refused, FirstRoom, Grouped, Fair;
      needToDrain := true;
      var lanes := Group(lookupBatch);
      FlushIsStep(View([]), limits);
      lookupBatch := [];
      steps := [BeginFlush];
      ghost var began := View(lanes);
      accepted, steps := PostAll(lanes);
      EvolveOn(old(View([])), limits, [BeginFlush], began, steps, View([]));
      steps := [BeginFlush] + steps;
      if old(future) == [] {
        AdmittedFairly(old(lookupBatch), limits.keysPerBatch, accepted, limits.capacity - |old(lookupQueue)|);
      }
    }

    method Group(items: seq<Item>) returns (lanes: seq<Lane>)
      ensures lanes == Grouped(items)
    {
      lanes := [];
      assert items[..0] == [];
      for i := 0 to |items|
        invariant lanes == Grouped(items[..i])
      {
        assert items[..i + 1][..i] == items[..i];
        lanes := Joined(lanes, items[i]);
      }
      assert items[..|items|] == items;
    }

    /** Post the first lane's next chunk and send the lane to the back; a lane with none leaves. */
    method PostOne(lanes: seq<Lane>) returns (next: seq<Lane>, ghost ok: bool)
      requires limits.keysPerBatch > 0 && lanes != []
      modifies this`lookupState, this`lookupQueue, this`droppedKeys
      ensures Can(old(View(lanes)), limits, Post(ok)) && View(next) == After(old(View(lanes)), limits, Post(ok))
      ensures lanes[0].rest == [] ==> next == lanes[1..] && unchanged(this)
      ensures lanes[0].rest != [] ==>
                && next == Rotated(lanes, limits.keysPerBatch)
                && ok == (|old(lookupQueue)| < limits.capacity)
                && |lookupQueue| == |old(lookupQueue)| + (if ok then 1 else 0)
                && droppedKeys == old(droppedKeys) + if ok then 0 else |First(lanes[0].rest, limits.keysPerBatch)|
    {
      hide Dropped;
      var chunk := First(lanes[0].rest, limits.keysPerBatch);
      next := lanes[1..];
      if chunk == [] {
        return next, true;
      }
      if |lookupQueue| < limits.capacity {
        lookupQueue := lookupQueue + [chunk];
        ok := true;
      } else {
        DropChunk(chunk);
        droppedKeys := droppedKeys + |chunk|;
        ok := false;
      }
      next := next + [Lane(lanes[0].req, Rest(lanes[0].rest, limits.keysPerBatch))];
    }

    method DropChunk(chunk: seq<Item>)
      modifies this`lookupState
      ensures lookupState == Dropped(old(lookupState), chunk, live)
    {
      var i := 0;
      assert chunk[0..] == chunk;
      while i < |chunk|
        invariant 0 <= i <= |chunk|
        invariant Dropped(lookupState, chunk[i..], live) == Dropped(old(lookupState), chunk, live)
      {
        var item := chunk[i];
        assert chunk[i..][1..] == chunk[i + 1..];
        if item.key in lookupState && item.token in live {
          lookupState := lookupState[item.key := lookupState[item.key].(result := Some(false))];
        }
        i := i + 1;
      }
    }

    /** Rotate over the requests, a chunk at a time, until none has keys left. */
    method PostAll(first: seq<Lane>) returns (ghost accepted: seq<bool>, ghost steps: seq<Step>)
      requires limits.keysPerBatch > 0
      modifies this`lookupState, this`lookupQueue, this`pendingResults, this`droppedKeys, this`workers, this`future
      ensures Evolved(old(View(first)), limits, steps, View([]))
      ensures |accepted| == |Posts(first, limits.keysPerBatch)|
      ensures droppedKeys == old(droppedKeys) + Refused(Posts(first, limits.keysPerBatch), accepted)
      ensures old(future) == [] ==> FirstRoom(accepted, limits.capacity - |old(lookupQueue)|)
    {
      hide Evolved, Can, After, Refused, RoomLeft, Dropped, First, Rest;
      Unevolved(View(first), limits);
      steps, accepted := [], [];
      var lanes := first;
      ghost var posted: seq<Lane> := [];
      ghost var posts := Posts(first, limits.keysPerBatch);
      NothingRefused();
      RoomAtFirst(|lookupQueue|, limits.capacity);
      while lanes != []
        invariant Evolved(old(View(first)), limits, steps, View(lanes))
        invariant posted + Posts(lanes, limits.keysPerBatch) == posts
        invariant |accepted| == |posted| && droppedKeys == old(droppedKeys) + Refused(posted, accepted)
        invariant old(future) == [] ==> future == []
        invariant old(future) == [] ==> RoomLeft(accepted, |old(lookupQueue)|, |lookupQueue|, limits.capacity)
        decreases Pending(lanes), |lanes|
      {
        ghost var before := View(lanes);
        ghost var moves := Interleave(lanes);
        EvolveOn(old(View(first)), limits, steps, before, moves, View(lanes));
        steps := steps + moves;
        ghost var now, queued := View(lanes), |lookupQueue|;
        var next;
        ghost var ok;
        next, ok := PostOne(lanes);
        EvolveStep(old(View(first)), limits, steps, now, Post(ok));
        steps := steps + [Post(ok)];
        if lanes[0].rest != [] {
          ghost var post := Lane(lanes[0].req, First(lanes[0].rest, limits.keysPerBatch));
          RefusedSnoc(posted, accepted, post, ok);
          if old(future) == [] {
            RoomStep(accepted, |old(lookupQueue)|, queued, limits.capacity, ok);
          }
          assert posted + ([post] + Posts(next, limits.keysPerBatch)) ==
              posted + [post] + Posts(next, limits.keysPerBatch);
          posted, accepted := posted + [post], accepted + [ok];
        }
        lanes := next;
      }
      assert posted + [] == posted;
      RoomIsFirst(accepted, |old(lookupQueue)|, |lookupQueue|, limits.capacity);
    }

    /** Forget a request's interest in a key, and the key if nobody else wants it. */
    method ForgetKey(req: string, key: Key)
      requires key in KeysOf(reqKeys, req)
      modifies this`lookupState, this`reqKeys, this`live, this`cancelledKeys
      ensures View([]) == Forgotten(old(View([])), req, key)
      ensures cancelledKeys == old(cancelledKeys) +
                if key in old(lookupState) && key !in lookupState && old(lookupState)[key].result.None? then 1 else 0
    {
      var left := reqKeys[req] - {key};
      reqKeys := if left == {} then reqKeys - {req} else reqKeys[req := left];
      if key in lookupState {
        var entry := lookupState[key].(requests := lookupState[key].requests - {req});
        if entry.requests != {} {
          lookupState := lookupState[key := entry];
        } else {
          if entry.result.None? {
            cancelledKeys := cancelledKeys + 1;
          }
          live := live - {entry.token};
          lookupState := lookupState - {key};
        }
      }
    }

    /** A request is done: forget its interest in its keys, and the keys nobody else wants. */
    method Cleanup(req: string) returns (ghost steps: seq<Step>)
      requires Indexed(lookupState, reqKeys)
      modifies this`lookupState, this`reqKeys, this`live, this`cancelledKeys
      ensures Evolved(old(View([])), limits, steps, View([]))
      ensures KeysOf(reqKeys, req) == {}
      ensures ForgottenSoFar(old(lookupState), lookupState, {}, req)
    {
      hide Evolved, Indexed, KeysOf, ForgottenSoFar, Forgotten;
      Unevolved(View([]), limits);
      steps := [];
      ForgetNone(lookupState, reqKeys, req);
      while KeysOf(reqKeys, req) != {}
        invariant Evolved(old(View([])), limits, steps, View([]))
        invariant Indexed(lookupState, reqKeys)
        invariant ForgottenSoFar(old(lookupState), lookupState, KeysOf(reqKeys, req), req)
        decreases |KeysOf(reqKeys, req)|
      {
        var key :| key in KeysOf(reqKeys, req);
        ForgetIndexed(View([]), req, key);
        ForgetNext(old(lookupState), View([]), req, key);
        ForgetIsStep(old(View([])), limits, steps, View([]), req, key);
        steps := steps + [Forget(req, key)];
        ForgetKey(req, key);
      }
    }

    /** Turn cached results into misses after a failed load. */
    method InvalidateKeys(keys: seq<Key>) returns (ghost steps: seq<Step>)
      modifies this`lookupState
      ensures Evolved(old(View([])), limits, steps, View([]))
      ensures SameKeys(old(lookupState), lookupState)
      ensures forall key :: key in lookupState ==>
                lookupState[key].result == if key in keys then Some(false) else old(lookupState)[key].result
    {
      hide Evolved;
      Unevolved(View([]), limits);
      steps := [];
      for i := 0 to |keys|
        invariant Evolved(old(View([])), limits, steps, View([]))
        invariant SameKeys(old(lookupState), lookupState)
        invariant forall key :: key in lookupState ==>
                    lookupState[key].result == if key in keys[..i] then Some(false) else old(lookupState)[key].result
      {
        EvolveStep(old(View([])), limits, steps, View([]), Invalidate(keys[i]));
        steps := steps + [Invalidate(keys[i])];
        assert keys[..i + 1] == keys[..i] + [keys[i]];
        if keys[i] in lookupState {
          lookupState := lookupState[keys[i] := lookupState[keys[i]].(result := Some(false))];
        }
      }
      assert keys[..|keys|] == keys;
    }
  }
}
