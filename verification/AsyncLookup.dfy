/** Asynchronous existence lookups: a scheduler thread that collects keys, posts them in small
    chunks and applies results, and workers that look chunks up, with a cancellation token per
    lookup; every interleaving, one transition per operation on shared data.
 */
module AsyncLookup {
  import opened Wrappers

  type Key = nat

  /** A key to look up, the request that asked first, and its cancellation token. */
  datatype Item = Item(key: Key, req: string, token: nat)

  datatype Answer = Answer(key: Key, hit: bool)

  /** The scheduler's state of a key; the result is absent until an answer or a drop. */
  datatype Entry = Entry(result: Option<bool>, requests: set<string>, token: nat)

  /** What a flush has still to post of one request. */
  datatype Lane = Lane(req: string, rest: seq<Item>)

  datatype Worker =
    | Idle
    | Filtering(todo: seq<Item>, kept: seq<Item>)
    | Looking(items: seq<Item>)
    | Checking(left: seq<Item>, hits: seq<bool>, results: seq<Answer>)

  datatype Limits = Limits(capacity: nat, keysPerStep: nat, keysPerBatch: nat)

  datatype System = System(
    entries: map<Key, Entry>,
    reqKeys: map<string, set<Key>>,
    batch: seq<Item>,
    lanes: seq<Lane>,
    queue: seq<seq<Item>>,
    published: seq<seq<Answer>>,
    workers: map<nat, Worker>,
    live: set<nat>,
    nextToken: nat)

  function Started(workers: set<nat>): System {
    System(map[], map[], [], [], [], [], map w | w in workers :: Idle, {}, 0)
  }

  datatype Step =
    | Lookup(key: Key, req: string)
    | BeginFlush
    | Post(accepted: bool)
    | Drain
    | Forget(req: string, key: Key)
    | Invalidate(key: Key)
    | Take(worker: nat)
    | Filter(worker: nat)
    | LookUp(worker: nat)
    | Respond(worker: nat, answers: seq<bool>)
    | Check(worker: nat)
    | Publish(worker: nat)

  function KeysOf(reqKeys: map<string, set<Key>>, req: string): set<Key> {
    if req in reqKeys then reqKeys[req] else {}
  }

  /** Keys of a step, per request, requests in the order of their first key. */
  function Grouped(items: seq<Item>): seq<Lane> {
    if items == [] then []
    else Joined(Grouped(items[..|items| - 1]), items[|items| - 1])
  }

  function Joined(lanes: seq<Lane>, item: Item): seq<Lane> {
    if lanes == [] then [Lane(item.req, [item])]
    else if lanes[0].req == item.req then [Lane(item.req, lanes[0].rest + [item])] + lanes[1..]
    else [lanes[0]] + Joined(lanes[1..], item)
  }

  function First(items: seq<Item>, size: nat): seq<Item> {
    items[..if |items| < size then |items| else size]
  }

  function Rest(items: seq<Item>, size: nat): seq<Item> {
    items[if |items| < size then |items| else size..]
  }

  /** A dropped chunk makes the keys it was still to answer misses. */
  function Dropped(entries: map<Key, Entry>, chunk: seq<Item>, live: set<nat>): map<Key, Entry> {
    if chunk == [] then entries
    else
      var item := chunk[0];
      var next := if item.key in entries && item.token in live
                  then entries[item.key := entries[item.key].(result := Some(false))] else entries;
      Dropped(next, chunk[1..], live)
  }

  function Applied(entries: map<Key, Entry>, answers: seq<Answer>): map<Key, Entry> {
    if answers == [] then entries
    else
      var answer := answers[0];
      var next := if answer.key in entries
                  then entries[answer.key := entries[answer.key].(result := Some(answer.hit))] else entries;
      Applied(next, answers[1..])
  }

  predicate CanWork(s: System, step: Step) {
    match step
    case Take(w) => w in s.workers && s.workers[w].Idle? && s.queue != []
    case Filter(w) => w in s.workers && s.workers[w].Filtering? && s.workers[w].todo != []
    case LookUp(w) => w in s.workers && s.workers[w].Filtering? && s.workers[w].todo == []
    case Respond(w, answers) => w in s.workers && s.workers[w].Looking? && |answers| == |s.workers[w].items|
    case Check(w) => w in s.workers && s.workers[w].Checking? && s.workers[w].left != [] && s.workers[w].hits != []
    case Publish(w) => w in s.workers && s.workers[w].Checking? && s.workers[w].left == []
    case _ => false
  }

  predicate Can(s: System, lim: Limits, step: Step) {
    match step
    case Lookup(_, _) => true
    case BeginFlush => s.lanes == []
    case Post(accepted) => s.lanes != [] && (s.lanes[0].rest != [] ==> accepted == (|s.queue| < lim.capacity))
    case Drain => s.published != []
    case Forget(req, key) => key in KeysOf(s.reqKeys, req)
    case Invalidate(_) => true
    case _ => CanWork(s, step)
  }

  /** What one worker does with itself. */
  function WorkerAfter(w: Worker, queue: seq<seq<Item>>, live: set<nat>, step: Step): Worker {
    match (w, step)
    case (Idle, Take(_)) => if queue != [] then Filtering(queue[0], []) else w
    case (Filtering(todo, kept), Filter(_)) =>
      if todo == [] then w
      else Filtering(todo[1..], if todo[0].token in live then kept + [todo[0]] else kept)
    case (Filtering(_, kept), LookUp(_)) => if kept == [] then Idle else Looking(kept)
    case (Looking(items), Respond(_, answers)) => Checking(items, answers, [])
    case (Checking(left, hits, results), Check(_)) =>
      if left == [] || hits == [] then w
      else Checking(left[1..], hits[1..],
                    if left[0].token in live then results + [Answer(left[0].key, hits[0])] else results)
    case (Checking(_, _, _), Publish(_)) => Idle
    case _ => w
  }

  function Worked(s: System, step: Step, w: nat): System {
    if w !in s.workers then s else
      var worker := s.workers[w];
      s.(workers := s.workers[w := WorkerAfter(worker, s.queue, s.live, step)],
         queue := if step.Take? && worker.Idle? && s.queue != [] then s.queue[1..] else s.queue,
         published := if step.Publish? && worker.Checking? && worker.results != []
                      then s.published + [worker.results] else s.published)
  }

  function LookedUp(s: System, lim: Limits, key: Key, req: string): System {
    var known := key in s.entries;
    var queued := |s.batch| < lim.keysPerStep;
    var entry := if known then s.entries[key]
                 else Entry(if queued then None else Some(false), {}, s.nextToken);
    s.(entries := s.entries[key := entry.(requests := entry.requests + {req})],
       reqKeys := s.reqKeys[req := KeysOf(s.reqKeys, req) + {key}],
       batch := if !known && queued then s.batch + [Item(key, req, s.nextToken)] else s.batch,
       live := if known then s.live else s.live + {s.nextToken},
       nextToken := if known then s.nextToken else s.nextToken + 1)
  }

  function Posted(s: System, lim: Limits, accepted: bool): System {
    if s.lanes == [] then s
    else if s.lanes[0].rest == [] then s.(lanes := s.lanes[1..])
    else
      var chunk := First(s.lanes[0].rest, lim.keysPerBatch);
      s.(lanes := s.lanes[1..] + [Lane(s.lanes[0].req, Rest(s.lanes[0].rest, lim.keysPerBatch))],
         queue := if accepted then s.queue + [chunk] else s.queue,
         entries := if accepted then s.entries else Dropped(s.entries, chunk, s.live))
  }

  function Forgotten(s: System, req: string, key: Key): System {
    var left := KeysOf(s.reqKeys, req) - {key};
    var indexed := s.(reqKeys := if left == {} then s.reqKeys - {req} else s.reqKeys[req := left]);
    if key !in s.entries then indexed else
      var entry := s.entries[key].(requests := s.entries[key].requests - {req});
      if entry.requests != {} then indexed.(entries := s.entries[key := entry])
      else indexed.(entries := s.entries - {key}, live := s.live - {entry.token})
  }

  function After(s: System, lim: Limits, step: Step): System {
    match step
    case Lookup(key, req) => LookedUp(s, lim, key, req)
    case BeginFlush => s.(batch := [], lanes := Grouped(s.batch))
    case Post(accepted) => Posted(s, lim, accepted)
    case Drain =>
      if s.published == [] then s
      else s.(entries := Applied(s.entries, s.published[0]), published := s.published[1..])
    case Forget(req, key) => Forgotten(s, req, key)
    case Invalidate(key) =>
      if key in s.entries then s.(entries := s.entries[key := s.entries[key].(result := Some(false))]) else s
    case _ => Worked(s, step, step.worker)
  }

  /** The request index is the exact inverse of the requests recorded per key. */
  ghost predicate Indexed(entries: map<Key, Entry>, reqKeys: map<string, set<Key>>) {
    && (forall key :: key in entries ==> entries[key].requests != {})
    && (forall req, key :: key in KeysOf(reqKeys, req) <==> key in entries && req in entries[key].requests)
  }

  /** The live tokens are those of the keys known, one each. */
  ghost predicate Tokens(entries: map<Key, Entry>, live: set<nat>, nextToken: nat) {
    && (forall key :: key in entries ==> entries[key].token in live)
    && (forall a, b :: a in entries && b in entries && entries[a].token == entries[b].token ==> a == b)
    && (forall token :: token in live ==> token < nextToken)
  }

  predicate Listed(items: seq<Item>, key: Key, token: nat) {
    exists i :: 0 <= i < |items| && items[i].key == key && items[i].token == token
  }

  predicate Answered(answers: seq<Answer>, key: Key) {
    exists i :: 0 <= i < |answers| && answers[i].key == key
  }

  predicate InLanes(lanes: seq<Lane>, key: Key, token: nat) {
    exists i :: 0 <= i < |lanes| && Listed(lanes[i].rest, key, token)
  }

  predicate Queued(queue: seq<seq<Item>>, key: Key, token: nat) {
    exists i :: 0 <= i < |queue| && Listed(queue[i], key, token)
  }

  predicate Published(published: seq<seq<Answer>>, key: Key) {
    exists i :: 0 <= i < |published| && Answered(published[i], key)
  }

  predicate HeldBy(w: Worker, key: Key, token: nat) {
    match w
    case Idle => false
    case Filtering(todo, kept) => Listed(todo, key, token) || Listed(kept, key, token)
    case Looking(items) => Listed(items, key, token)
    case Checking(left, _, results) => Listed(left, key, token) || Answered(results, key)
  }

  predicate AtWork(workers: map<nat, Worker>, key: Key, token: nat) {
    exists w :: w in workers && HeldBy(workers[w], key, token)
  }

  /** Something on its way will give the key a result: its own uncancelled token in the step
      batch, a flush, the queue or a worker, or an answer for the key. */
  predicate OnItsWay(s: System, key: Key, token: nat) {
    || Listed(s.batch, key, token)
    || InLanes(s.lanes, key, token)
    || Queued(s.queue, key, token)
    || AtWork(s.workers, key, token)
    || Published(s.published, key)
  }

  ghost predicate NoneStranded(s: System) {
    forall key :: key in s.entries && s.entries[key].result.None? ==> OnItsWay(s, key, s.entries[key].token)
  }

  /** As many hits as keys, at every worker. */
  predicate Parallel(workers: map<nat, Worker>) {
    forall w :: w in workers && workers[w].Checking? ==> |workers[w].left| == |workers[w].hits|
  }

  ghost predicate Inv(s: System) {
    && Indexed(s.entries, s.reqKeys)
    && Tokens(s.entries, s.live, s.nextToken)
    && Parallel(s.workers)
    && NoneStranded(s)
  }

  lemma FirstThenRest(items: seq<Item>, size: nat, key: Key, token: nat)
    requires Listed(items, key, token)
    ensures Listed(First(items, size), key, token) || Listed(Rest(items, size), key, token)
  {
    var i :| 0 <= i < |items| && items[i].key == key && items[i].token == token;
    var cut := if |items| < size then |items| else size;
    if i < cut {
      assert First(items, size)[i] == items[i];
    } else {
      assert Rest(items, size)[i - cut] == items[i];
    }
  }

  lemma ListedConcat(a: seq<Item>, b: seq<Item>, key: Key, token: nat)
    ensures Listed(a + b, key, token) <==> Listed(a, key, token) || Listed(b, key, token)
  {
    if Listed(a, key, token) {
      var i :| 0 <= i < |a| && a[i].key == key && a[i].token == token;
      assert (a + b)[i] == a[i];
    }
    if Listed(b, key, token) {
      var i :| 0 <= i < |b| && b[i].key == key && b[i].token == token;
      assert (a + b)[|a| + i] == b[i];
    }
  }

  lemma ListedFirst(items: seq<Item>, key: Key, token: nat)
    requires items != []
    ensures Listed(items, key, token) <==>
              (items[0].key == key && items[0].token == token) || Listed(items[1..], key, token)
  {
    ListedConcat([items[0]], items[1..], key, token);
    assert [items[0]] + items[1..] == items;
    assert Listed([items[0]], key, token) <==> items[0].key == key && items[0].token == token by {
      assert [items[0]][0] == items[0];
    }
  }

  lemma LanesConcat(a: seq<Lane>, b: seq<Lane>, key: Key, token: nat)
    ensures InLanes(a + b, key, token) <==> InLanes(a, key, token) || InLanes(b, key, token)
  {
    if InLanes(a, key, token) {
      var i :| 0 <= i < |a| && Listed(a[i].rest, key, token);
      assert (a + b)[i] == a[i];
    }
    if InLanes(b, key, token) {
      var i :| 0 <= i < |b| && Listed(b[i].rest, key, token);
      assert (a + b)[|a| + i] == b[i];
    }
  }

  lemma LanesOne(lane: Lane, key: Key, token: nat)
    ensures InLanes([lane], key, token) <==> Listed(lane.rest, key, token)
  {
    assert [lane][0] == lane;
  }

  lemma {:induction false} GroupedLists(items: seq<Item>, key: Key, token: nat)
    requires Listed(items, key, token)
    ensures InLanes(Grouped(items), key, token)
  {
    var last := |items| - 1;
    ListedConcat(items[..last], [items[last]], key, token);
    assert items[..last] + [items[last]] == items;
    JoinedLists(Grouped(items[..last]), items[last], key, token);
    if Listed(items[..last], key, token) {
      GroupedLists(items[..last], key, token);
    }
  }

  lemma {:induction false} JoinedLists(lanes: seq<Lane>, item: Item, key: Key, token: nat)
    ensures Listed([item], key, token) || InLanes(lanes, key, token) ==> InLanes(Joined(lanes, item), key, token)
  {
    if lanes == [] {
      LanesOne(Lane(item.req, [item]), key, token);
    } else {
      assert lanes == [lanes[0]] + lanes[1..];
      LanesConcat([lanes[0]], lanes[1..], key, token);
      LanesOne(lanes[0], key, token);
      if lanes[0].req == item.req {
        var grown := Lane(item.req, lanes[0].rest + [item]);
        ListedConcat(lanes[0].rest, [item], key, token);
        LanesOne(grown, key, token);
        LanesConcat([grown], lanes[1..], key, token);
      } else {
        JoinedLists(lanes[1..], item, key, token);
        LanesConcat([lanes[0]], Joined(lanes[1..], item), key, token);
      }
    }
  }

  lemma QueuedConcat(queue: seq<seq<Item>>, chunk: seq<Item>, key: Key, token: nat)
    ensures Queued(queue + [chunk], key, token) <==> Queued(queue, key, token) || Listed(chunk, key, token)
  {
    if Queued(queue, key, token) {
      var i :| 0 <= i < |queue| && Listed(queue[i], key, token);
      assert (queue + [chunk])[i] == queue[i];
    }
    assert (queue + [chunk])[|queue|] == chunk;
  }

  lemma QueuedFirst(queue: seq<seq<Item>>, key: Key, token: nat)
    requires queue != []
    ensures Queued(queue, key, token) ==> Listed(queue[0], key, token) || Queued(queue[1..], key, token)
  {
    if Queued(queue, key, token) {
      var i :| 0 <= i < |queue| && Listed(queue[i], key, token);
      assert i > 0 ==> queue[1..][i - 1] == queue[i];
    }
  }

  lemma PublishedConcat(published: seq<seq<Answer>>, results: seq<Answer>, key: Key)
    ensures Published(published + [results], key) <==> Published(published, key) || Answered(results, key)
  {
    if Published(published, key) {
      var i :| 0 <= i < |published| && Answered(published[i], key);
      assert (published + [results])[i] == published[i];
    }
    assert (published + [results])[|published|] == results;
  }

  lemma PublishedFirst(published: seq<seq<Answer>>, key: Key)
    requires published != []
    ensures Published(published, key) ==> Answered(published[0], key) || Published(published[1..], key)
  {
    if Published(published, key) {
      var i :| 0 <= i < |published| && Answered(published[i], key);
      assert i > 0 ==> published[1..][i - 1] == published[i];
    }
  }

  lemma AnsweredSnoc(results: seq<Answer>, answer: Answer, key: Key)
    ensures Answered(results, key) || answer.key == key ==> Answered(results + [answer], key)
  {
    if Answered(results, key) {
      var i :| 0 <= i < |results| && results[i].key == key;
      assert (results + [answer])[i] == results[i];
    }
    assert (results + [answer])[|results|] == answer;
  }

  /** A drop keeps keys, requests and tokens, and leaves no live key of the chunk without a result. */
  lemma {:induction false} DroppedEntry(entries: map<Key, Entry>, chunk: seq<Item>, live: set<nat>, key: Key)
    ensures key in Dropped(entries, chunk, live) <==> key in entries
    ensures key in entries ==>
              var entry := Dropped(entries, chunk, live)[key];
              && entry.(result := None) == entries[key].(result := None)
              && (entry.result.None? ==>
                    entries[key].result.None? && !(Listed(chunk, key, entry.token) && entry.token in live))
    decreases |chunk|
  {
    if chunk != [] {
      var item := chunk[0];
      var next := if item.key in entries && item.token in live
                  then entries[item.key := entries[item.key].(result := Some(false))] else entries;
      DroppedEntry(next, chunk[1..], live, key);
      if key in entries {
        ListedFirst(chunk, key, entries[key].token);
      }
    }
  }

  /** Answers keep keys, requests and tokens, and leave no key answered without a result. */
  lemma {:induction false} AppliedEntry(entries: map<Key, Entry>, answers: seq<Answer>, key: Key)
    ensures key in Applied(entries, answers) <==> key in entries
    ensures key in entries ==>
              var entry := Applied(entries, answers)[key];
              && entry.(result := None) == entries[key].(result := None)
              && (entry.result.None? ==> entries[key].result.None? && !Answered(answers, key))
    decreases |answers|
  {
    if answers != [] {
      var next := if answers[0].key in entries
                  then entries[answers[0].key := entries[answers[0].key].(result := Some(answers[0].hit))] else entries;
      AppliedEntry(next, answers[1..], key);
      if Answered(answers, key) && answers[0].key != key {
        var i :| 0 <= i < |answers| && answers[i].key == key;
        assert answers[1..][i - 1] == answers[i];
      }
    }
  }

  /** Same keys, requests and tokens: the index and the tokens stay right. */
  ghost predicate SameKeys(a: map<Key, Entry>, b: map<Key, Entry>) {
    && a.Keys == b.Keys
    && forall key :: key in a ==> a[key].requests == b[key].requests && a[key].token == b[key].token
  }

  lemma SameKeysKeep(s: System, next: System)
    requires Indexed(s.entries, s.reqKeys) && Tokens(s.entries, s.live, s.nextToken)
        && SameKeys(s.entries, next.entries)
    requires next.reqKeys == s.reqKeys && next.live == s.live && next.nextToken == s.nextToken
    ensures Indexed(next.entries, next.reqKeys) && Tokens(next.entries, next.live, next.nextToken)
  {
  }

  lemma DrainKeeps(s: System, lim: Limits)
    requires Inv(s) && Can(s, lim, Drain)
    ensures Inv(After(s, lim, Drain))
  {
    hide Listed, Answered, InLanes, Queued, AtWork, Published, Indexed, Tokens, Applied, Parallel;
    var next := After(s, lim, Drain);
    forall key ensures key in next.entries <==> key in s.entries
      ensures key in s.entries ==> next.entries[key].(result := None) == s.entries[key].(result := None)
      ensures key in s.entries && next.entries[key].result.None? ==>
                s.entries[key].result.None? && !Answered(s.published[0], key)
    {
      AppliedEntry(s.entries, s.published[0], key);
    }
    SameKeysKeep(s, next);
    forall key | key in next.entries && next.entries[key].result.None?
      ensures OnItsWay(next, key, next.entries[key].token)
    {
      PublishedFirst(s.published, key);
    }
  }

  lemma PostKeeps(s: System, lim: Limits, accepted: bool)
    requires Inv(s) && Can(s, lim, Post(accepted))
    ensures Inv(After(s, lim, Post(accepted)))
  {
    hide Listed, Answered, InLanes, Queued, AtWork, Published, Indexed, Tokens, Dropped, Parallel, First, Rest;
    var next := After(s, lim, Post(accepted));
    var chunk := First(s.lanes[0].rest, lim.keysPerBatch);
    forall key ensures key in next.entries <==> key in s.entries
      ensures key in s.entries ==> next.entries[key].(result := None) == s.entries[key].(result := None)
      ensures key in s.entries && next.entries[key].result.None? ==>
                && s.entries[key].result.None?
                && (!accepted && s.lanes[0].rest != [] ==>
                      !(Listed(chunk, key, s.entries[key].token) && s.entries[key].token in s.live))
    {
      DroppedEntry(s.entries, chunk, s.live, key);
    }
    SameKeysKeep(s, next);
    forall key | key in next.entries && next.entries[key].result.None?
      ensures OnItsWay(next, key, next.entries[key].token)
    {
      TokenLive(s, key);
      PostCarries(s, lim, accepted, key, s.entries[key].token);
    }
  }

  lemma TokenLive(s: System, key: Key)
    requires Tokens(s.entries, s.live, s.nextToken) && key in s.entries
    ensures s.entries[key].token in s.live
  {
  }

  lemma PostCarries(s: System, lim: Limits, accepted: bool, key: Key, token: nat)
    requires s.lanes != [] && OnItsWay(s, key, token)
    requires !accepted && s.lanes[0].rest != [] ==> !Listed(First(s.lanes[0].rest, lim.keysPerBatch), key, token)
    ensures OnItsWay(Posted(s, lim, accepted), key, token)
  {
    hide Listed, Answered, InLanes, Queued, AtWork, Published, Dropped, First, Rest;
    var lane := s.lanes[0];
    assert s.lanes == [lane] + s.lanes[1..];
    LanesConcat([lane], s.lanes[1..], key, token);
    LanesOne(lane, key, token);
    if lane.rest == [] {
      NoneListed(key, token);
    } else {
      var chunk, rest := First(lane.rest, lim.keysPerBatch), Lane(lane.req, Rest(lane.rest, lim.keysPerBatch));
      LanesConcat(s.lanes[1..], [rest], key, token);
      LanesOne(rest, key, token);
      QueuedConcat(s.queue, chunk, key, token);
      if Listed(lane.rest, key, token) {
        FirstThenRest(lane.rest, lim.keysPerBatch, key, token);
      }
    }
  }

  lemma NoneListed(key: Key, token: nat)
    ensures !Listed([], key, token)
  {
  }

  lemma FlushKeeps(s: System, lim: Limits)
    requires Inv(s) && Can(s, lim, BeginFlush)
    ensures Inv(After(s, lim, BeginFlush))
  {
    hide Listed, Answered, Queued, AtWork, Published, Indexed, Tokens, Parallel, Grouped;
    var next := After(s, lim, BeginFlush);
    forall key | key in next.entries && next.entries[key].result.None?
      ensures OnItsWay(next, key, next.entries[key].token)
    {
      if Listed(s.batch, key, next.entries[key].token) {
        GroupedLists(s.batch, key, next.entries[key].token);
      }
    }
  }

  lemma LookupIndexed(s: System, lim: Limits, key: Key, req: string)
    requires Indexed(s.entries, s.reqKeys) && Tokens(s.entries, s.live, s.nextToken)
    ensures var next := LookedUp(s, lim, key, req);
            Indexed(next.entries, next.reqKeys) && Tokens(next.entries, next.live, next.nextToken)
  {
    var next := LookedUp(s, lim, key, req);
    forall r, k ensures k in KeysOf(next.reqKeys, r) <==> k in next.entries && r in next.entries[k].requests {
      assert k in KeysOf(s.reqKeys, r) <==> k in s.entries && r in s.entries[k].requests;
    }
  }

  lemma LookupKeeps(s: System, lim: Limits, key: Key, req: string)
    requires Inv(s)
    ensures Inv(LookedUp(s, lim, key, req))
  {
    hide Listed, Answered, InLanes, Queued, AtWork, Published, Indexed, Tokens, Parallel;
    LookupIndexed(s, lim, key, req);
    var next := LookedUp(s, lim, key, req);
    var item := Item(key, req, s.nextToken);
    forall k | k in next.entries && next.entries[k].result.None?
      ensures OnItsWay(next, k, next.entries[k].token)
    {
      ListedConcat(s.batch, [item], k, next.entries[k].token);
      ListedItself(item);
    }
  }

  lemma ListedItself(item: Item)
    ensures Listed([item], item.key, item.token)
  {
    assert [item][0] == item;
  }

  lemma ForgetIndexed(s: System, req: string, key: Key)
    requires Indexed(s.entries, s.reqKeys) && key in KeysOf(s.reqKeys, req)
    ensures Indexed(Forgotten(s, req, key).entries, Forgotten(s, req, key).reqKeys)
  {
    var next := Forgotten(s, req, key);
    assert key in s.entries && req in s.entries[key].requests;
    var left := s.entries[key].requests - {req};
    forall r, k ensures k in KeysOf(next.reqKeys, r) <==> k in next.entries && r in next.entries[k].requests {
      assert k in KeysOf(s.reqKeys, r) <==> k in s.entries && r in s.entries[k].requests;
      assert k == key && r != req && r in s.entries[k].requests ==> r in left;
      assert k in KeysOf(next.reqKeys, r) <==> k in KeysOf(s.reqKeys, r) && !(r == req && k == key);
    }
  }

  lemma ForgetTokens(s: System, req: string, key: Key)
    requires Tokens(s.entries, s.live, s.nextToken)
    ensures var next := Forgotten(s, req, key);
            Tokens(next.entries, next.live, next.nextToken)
  {
  }

  lemma ForgetKeeps(s: System, req: string, key: Key)
    requires Inv(s) && key in KeysOf(s.reqKeys, req)
    ensures Inv(Forgotten(s, req, key))
  {
    hide Listed, Answered, InLanes, Queued, AtWork, Published, Indexed, Tokens, Parallel, KeysOf;
    ForgetIndexed(s, req, key);
    ForgetTokens(s, req, key);
    var next := Forgotten(s, req, key);
    forall k | k in next.entries && next.entries[k].result.None?
      ensures OnItsWay(next, k, next.entries[k].token)
    {
      assert OnItsWay(s, k, s.entries[k].token);
    }
  }

  lemma InvalidateKeeps(s: System, lim: Limits, key: Key)
    requires Inv(s)
    ensures Inv(After(s, lim, Invalidate(key)))
  {
    hide Listed, Answered, InLanes, Queued, AtWork, Published, Indexed, Tokens, Parallel, KeysOf;
    var next := After(s, lim, Invalidate(key));
    SameKeysKeep(s, next);
    forall k | k in next.entries && next.entries[k].result.None?
      ensures OnItsWay(next, k, next.entries[k].token)
    {
      assert OnItsWay(s, k, s.entries[k].token);
    }
  }

  /** A worker passes a live key on: it keeps it, or publishes an answer for it. */
  lemma WorkerPassesOn(w: Worker, queue: seq<seq<Item>>, live: set<nat>, step: Step, key: Key, token: nat)
    requires HeldBy(w, key, token) && token in live
    requires w.Checking? ==> |w.left| == |w.hits|
    requires step.Respond? && w.Looking? ==> |step.answers| == |w.items|
    requires step.LookUp? && w.Filtering? ==> w.todo == []
    requires step.Publish? && w.Checking? ==> w.left == []
    ensures
      || HeldBy(WorkerAfter(w, queue, live, step), key, token)
      || (step.Publish? && w.Checking? && Answered(w.results, key))
  {
    hide Listed, Answered;
    NoneListed(key, token);
    match (w, step)
    case (Filtering(todo, kept), Filter(_)) =>
      if todo != [] {
        ListedFirst(todo, key, token);
        ListedConcat(kept, [todo[0]], key, token);
        ListedItself(todo[0]);
      }
    case (Checking(left, hits, results), Check(_)) =>
      if left != [] {
        ListedFirst(left, key, token);
        AnsweredSnoc(results, Answer(left[0].key, hits[0]), key);
      }
    case _ =>
  }

  lemma WorkCarries(s: System, step: Step, key: Key, token: nat)
    requires CanWork(s, step) && Parallel(s.workers) && OnItsWay(s, key, token) && token in s.live
    ensures OnItsWay(Worked(s, step, step.worker), key, token)
  {
    hide Listed, Answered, InLanes, Queued, Published, HeldBy, WorkerAfter;
    var w, next := step.worker, Worked(s, step, step.worker);
    assert next.workers[w] == WorkerAfter(s.workers[w], s.queue, s.live, step);
    if Queued(s.queue, key, token) && step.Take? {
      QueuedFirst(s.queue, key, token);
      TakenHeld(s.queue, s.live, step, key, token);
    } else if AtWork(s.workers, key, token) {
      var x :| x in s.workers && HeldBy(s.workers[x], key, token);
      if x == w {
        WorkerPassesOn(s.workers[w], s.queue, s.live, step, key, token);
        PublishedPassed(s, step, key);
      } else {
        assert next.workers[x] == s.workers[x];
      }
    } else if Published(s.published, key) && step.Publish? {
      PublishedConcat(s.published, s.workers[w].results, key);
    }
  }

  lemma TakenHeld(queue: seq<seq<Item>>, live: set<nat>, step: Step, key: Key, token: nat)
    requires queue != [] && step.Take?
    ensures Listed(queue[0], key, token) ==> HeldBy(WorkerAfter(Idle, queue, live, step), key, token)
  {
  }

  lemma PublishedPassed(s: System, step: Step, key: Key)
    requires CanWork(s, step)
    ensures step.Publish? && Answered(s.workers[step.worker].results, key) ==>
              Published(Worked(s, step, step.worker).published, key)
  {
    hide Published;
    if step.Publish? && Answered(s.workers[step.worker].results, key) {
      PublishedConcat(s.published, s.workers[step.worker].results, key);
    }
  }

  lemma WorkKeeps(s: System, step: Step)
    requires Inv(s) && CanWork(s, step)
    ensures Inv(Worked(s, step, step.worker))
  {
    var next := Worked(s, step, step.worker);
    WorkParallel(s, step);
    hide CanWork, OnItsWay, Indexed, Tokens, Parallel, WorkerAfter;
    forall key | key in next.entries && next.entries[key].result.None?
      ensures OnItsWay(next, key, next.entries[key].token)
    {
      TokenLive(s, key);
      WorkCarries(s, step, key, s.entries[key].token);
    }
  }

  lemma WorkParallel(s: System, step: Step)
    requires Parallel(s.workers) && CanWork(s, step)
    ensures Parallel(Worked(s, step, step.worker).workers)
  {
  }

  lemma StepKeeps(s: System, lim: Limits, step: Step)
    requires Inv(s) && Can(s, lim, step)
    ensures Inv(After(s, lim, step))
  {
    hide Inv, CanWork, LookedUp, Posted, Forgotten, Worked;
    match step {
      case Lookup(key, req) => LookupKeeps(s, lim, key, req);
      case BeginFlush => FlushKeeps(s, lim);
      case Post(accepted) => PostKeeps(s, lim, accepted);
      case Drain => DrainKeeps(s, lim);
      case Forget(req, key) => ForgetKeeps(s, req, key);
      case Invalidate(key) => InvalidateKeeps(s, lim, key);
      case _ => WorkKeeps(s, step);
    }
  }

  ghost predicate Plays(s: System, lim: Limits, steps: seq<Step>)
    decreases |steps|
  {
    steps == [] || (Can(s, lim, steps[0]) && Plays(After(s, lim, steps[0]), lim, steps[1..]))
  }

  function Replay(s: System, lim: Limits, steps: seq<Step>): System
    decreases |steps|
  {
    if steps == [] then s else Replay(After(s, lim, steps[0]), lim, steps[1..])
  }

  lemma {:induction false} RunKeeps(s: System, lim: Limits, steps: seq<Step>)
    requires Inv(s) && Plays(s, lim, steps)
    ensures Inv(Replay(s, lim, steps))
    decreases |steps|
  {
    hide Inv, Can, After;
    if steps != [] {
      StepKeeps(s, lim, steps[0]);
      RunKeeps(After(s, lim, steps[0]), lim, steps[1..]);
    }
  }

  /** In every interleaving of scheduler and workers: no lookup is stranded, and the request index
      is the exact inverse of the requests recorded per key. */
  lemma RunsStrandNone(workers: set<nat>, lim: Limits, steps: seq<Step>)
    requires Plays(Started(workers), lim, steps)
    ensures var s := Replay(Started(workers), lim, steps);
            NoneStranded(s) && Indexed(s.entries, s.reqKeys)
  {
    RunKeeps(Started(workers), lim, steps);
  }

  /** The workers' parts, the queue and the results are all that a flush and its workers still have
      to do: when nothing is under way, every known key has its result. */
  lemma QuiescentMeansResolved(workers: set<nat>, lim: Limits, steps: seq<Step>)
    requires Plays(Started(workers), lim, steps)
    ensures var s := Replay(Started(workers), lim, steps);
            s.batch == [] && s.lanes == [] && s.queue == [] && s.published == []
            && (forall w :: w in s.workers ==> s.workers[w].Idle?) ==>
              forall key :: key in s.entries ==> s.entries[key].result.Some?
  {
    RunsStrandNone(workers, lim, steps);
  }
}
