/** The order in which a flush posts a step's keys: a chunk per request in turn, over and over. */
module LookupRotation {
  import opened AsyncLookup

  function Pending(lanes: seq<Lane>): nat {
    if lanes == [] then 0 else |lanes[0].rest| + Pending(lanes[1..])
  }

  lemma PendingSnoc(lanes: seq<Lane>, lane: Lane)
    ensures Pending(lanes + [lane]) == Pending(lanes) + |lane.rest|
  {
    if lanes != [] {
      assert (lanes + [lane])[1..] == lanes[1..] + [lane];
      PendingSnoc(lanes[1..], lane);
    }
  }

  /** The lanes once the first has given its next chunk and gone to the back. */
  function Rotated(lanes: seq<Lane>, size: nat): (next: seq<Lane>)
    requires lanes != [] && lanes[0].rest != [] && size > 0
    ensures Pending(next) < Pending(lanes)
  {
    var last := Lane(lanes[0].req, Rest(lanes[0].rest, size));
    PendingSnoc(lanes[1..], last);
    lanes[1..] + [last]
  }

  /** The chunks posted, each with its request, in order. */
  function Posts(lanes: seq<Lane>, size: nat): seq<Lane>
    requires size > 0
    decreases Pending(lanes), |lanes|
  {
    if lanes == [] then []
    else if lanes[0].rest == [] then Posts(lanes[1..], size)
    else [Lane(lanes[0].req, First(lanes[0].rest, size))] + Posts(Rotated(lanes, size), size)
  }

  predicate Named(lanes: seq<Lane>, req: string) {
    exists i :: 0 <= i < |lanes| && lanes[i].req == req
  }

  predicate Distinct(lanes: seq<Lane>) {
    forall i, j :: 0 <= i < j < |lanes| ==> lanes[i].req != lanes[j].req
  }

  function RestOf(lanes: seq<Lane>, req: string): seq<Item> {
    if lanes == [] then [] else if lanes[0].req == req then lanes[0].rest else RestOf(lanes[1..], req)
  }

  /** A request's posted keys, in order. */
  function ItemsFor(posts: seq<Lane>, req: string): seq<Item> {
    if posts == [] then []
    else (if posts[0].req == req then posts[0].rest else []) + ItemsFor(posts[1..], req)
  }

  function Count(posts: seq<Lane>, req: string): nat {
    if posts == [] then 0 else (if posts[0].req == req then 1 else 0) + Count(posts[1..], req)
  }

  lemma DistinctTail(lanes: seq<Lane>)
    requires lanes != [] && Distinct(lanes)
    ensures Distinct(lanes[1..]) && !Named(lanes[1..], lanes[0].req)
  {
    forall i, j | 0 <= i < j < |lanes[1..]| ensures lanes[1..][i].req != lanes[1..][j].req {
      assert lanes[i + 1].req != lanes[j + 1].req;
    }
    forall i | 0 <= i < |lanes[1..]| ensures lanes[1..][i].req != lanes[0].req {
      assert lanes[0].req != lanes[i + 1].req;
    }
  }

  lemma DistinctRotated(lanes: seq<Lane>, size: nat)
    requires lanes != [] && Distinct(lanes) && lanes[0].rest != [] && size > 0
    ensures Distinct(Rotated(lanes, size))
  {
    DistinctTail(lanes);
    var next := Rotated(lanes, size);
    forall i, j | 0 <= i < j < |next| ensures next[i].req != next[j].req {
      assert next[i] == lanes[1..][i];
    }
  }

  lemma {:induction false} RestAbsent(lanes: seq<Lane>, req: string)
    requires !Named(lanes, req)
    ensures RestOf(lanes, req) == []
  {
    if lanes != [] {
      assert lanes[0].req != req;
      forall i | 0 <= i < |lanes[1..]| ensures lanes[1..][i].req != req {
        assert lanes[i + 1].req != req;
      }
      RestAbsent(lanes[1..], req);
    }
  }

  lemma {:induction false} RestSnoc(lanes: seq<Lane>, lane: Lane, req: string)
    ensures RestOf(lanes + [lane], req) ==
              if Named(lanes, req) then RestOf(lanes, req) else if lane.req == req then lane.rest else []
  {
    if lanes != [] {
      assert (lanes + [lane])[1..] == lanes[1..] + [lane];
      RestSnoc(lanes[1..], lane, req);
      NamedFirst(lanes, req);
    }
  }

  lemma NamedFirst(lanes: seq<Lane>, req: string)
    requires lanes != []
    ensures Named(lanes, req) <==> lanes[0].req == req || Named(lanes[1..], req)
  {
    if Named(lanes[1..], req) {
      var i :| 0 <= i < |lanes[1..]| && lanes[1..][i].req == req;
      assert lanes[i + 1].req == req;
    }
    if Named(lanes, req) && lanes[0].req != req {
      var i :| 0 <= i < |lanes| && lanes[i].req == req;
      assert lanes[1..][i - 1].req == req;
    }
  }

  /** All of every request's keys are posted, in their order. */
  lemma {:induction false} PostsComplete(lanes: seq<Lane>, size: nat, req: string)
    requires Distinct(lanes) && size > 0
    ensures ItemsFor(Posts(lanes, size), req) == RestOf(lanes, req)
    decreases Pending(lanes), |lanes|
  {
    if lanes != [] {
      DistinctTail(lanes);
      if lanes[0].rest == [] {
        PostsComplete(lanes[1..], size, req);
        if lanes[0].req == req {
          RestAbsent(lanes[1..], req);
        }
      } else {
        DistinctRotated(lanes, size);
        PostsComplete(Rotated(lanes, size), size, req);
        RestSnoc(lanes[1..], Lane(lanes[0].req, Rest(lanes[0].rest, size)), req);
        if lanes[0].req == req {
          assert First(lanes[0].rest, size) + Rest(lanes[0].rest, size) == lanes[0].rest;
        } else if !Named(lanes[1..], req) {
          RestAbsent(lanes[1..], req);
        }
        var chunk := Lane(lanes[0].req, First(lanes[0].rest, size));
        assert Posts(lanes, size)[1..] == Posts(Rotated(lanes, size), size);
      }
    }
  }

  /** Every chunk is non-empty and no larger than a batch may be. */
  lemma {:induction false} PostsSized(lanes: seq<Lane>, size: nat, i: nat)
    requires size > 0 && i < |Posts(lanes, size)|
    ensures 0 < |Posts(lanes, size)[i].rest| <= size
    decreases Pending(lanes), |lanes|
  {
    if lanes[0].rest == [] {
      PostsSized(lanes[1..], size, i);
    } else if i > 0 {
      PostsSized(Rotated(lanes, size), size, i - 1);
    }
  }

  lemma {:induction false} CountAbsent(lanes: seq<Lane>, size: nat, req: string)
    requires size > 0 && !Named(lanes, req)
    ensures Count(Posts(lanes, size), req) == 0
    decreases Pending(lanes), |lanes|
  {
    if lanes != [] {
      NamedFirst(lanes, req);
      if lanes[0].rest == [] {
        CountAbsent(lanes[1..], size, req);
      } else {
        var next := Rotated(lanes, size);
        assert !Named(next, req) by {
          forall i | 0 <= i < |next| ensures next[i].req != req {
            assert i < |lanes| - 1 ==> next[i] == lanes[1..][i];
          }
        }
        CountAbsent(next, size, req);
        assert Posts(lanes, size)[1..] == Posts(next, size);
      }
    }
  }

  /** Lanes from `k` on have had one chunk more than those before. */
  function Ahead(lanes: seq<Lane>, k: nat, req: string): nat
    requires k <= |lanes|
  {
    if Named(lanes[k..], req) then 1 else 0
  }

  lemma AheadRotated(lanes: seq<Lane>, size: nat, k: nat, req: string)
    requires size > 0 && Distinct(lanes) && 0 < k <= |lanes| && lanes[0].rest != []
    ensures var next := Rotated(lanes, size);
            Ahead(next, k - 1, req) == Ahead(lanes, k, req) + if req == lanes[0].req then 1 else 0
  {
    var next := Rotated(lanes, size);
    var last := next[|next| - 1];
    assert next[k - 1..] == lanes[k..] + [last];
    DistinctTail(lanes);
    forall i | 0 <= i < |lanes[k..]| ensures lanes[k..][i].req != lanes[0].req {
      assert lanes[1..][i + k - 1] == lanes[k..][i];
    }
    if Named(lanes[k..], req) {
      var i :| 0 <= i < |lanes[k..]| && lanes[k..][i].req == req;
      assert next[k - 1..][i] == lanes[k..][i];
    }
    assert next[k - 1..][|lanes| - k] == last;
  }

  /** Two requests' posted chunk counts differ by at most one, unless the smaller has no more. */
  ghost predicate Balanced(posts: seq<Lane>, n: nat, a: string, aheadA: nat, b: string, aheadB: nat)
    requires n <= |posts|
  {
    || Count(posts[..n], a) + aheadA <= Count(posts[..n], b) + aheadB + 1
    || Count(posts[..n], b) == Count(posts, b)
  }

  lemma BalancedCons(post: Lane, posts: seq<Lane>, n: nat, a: string, aheadA: nat, b: string, aheadB: nat)
    requires n <= |posts|
    requires Balanced(posts, n, a, aheadA + (if a == post.req then 1 else 0), b,
                      aheadB + if b == post.req then 1 else 0)
    ensures Balanced([post] + posts, n + 1, a, aheadA, b, aheadB)
  {
    var all := [post] + posts;
    assert all[..n + 1][1..] == posts[..n] && all[1..] == posts;
  }

  lemma {:induction false} Rotates(lanes: seq<Lane>, size: nat, k: nat, n: nat, a: string, b: string)
    requires size > 0 && Distinct(lanes) && k <= |lanes| && n <= |Posts(lanes, size)|
    ensures Balanced(Posts(lanes, size), n, a, Ahead(lanes, k, a), b, Ahead(lanes, k, b))
    decreases Pending(lanes), |lanes|, if k == 0 then 1 else 0
  {
    if n == 0 {
      assert Posts(lanes, size)[..0] == [];
    } else if k == 0 {
      Rotates(lanes, size, |lanes|, n, a, b);
      AllAlike(lanes, size, n, a, b);
    } else if lanes[0].rest == [] {
      DistinctTail(lanes);
      assert lanes[1..][k - 1..] == lanes[k..];
      Rotates(lanes[1..], size, k - 1, n, a, b);
    } else {
      DistinctRotated(lanes, size);
      AheadRotated(lanes, size, k, a);
      AheadRotated(lanes, size, k, b);
      Rotates(Rotated(lanes, size), size, k - 1, n - 1, a, b);
      BalancedCons(Lane(lanes[0].req, First(lanes[0].rest, size)), Posts(Rotated(lanes, size), size), n - 1,
                   a, Ahead(lanes, k, a), b, Ahead(lanes, k, b));
    }
  }

  lemma AllAlike(lanes: seq<Lane>, size: nat, n: nat, a: string, b: string)
    requires size > 0 && n <= |Posts(lanes, size)|
    requires Balanced(Posts(lanes, size), n, a, Ahead(lanes, |lanes|, a), b, Ahead(lanes, |lanes|, b))
    ensures Balanced(Posts(lanes, size), n, a, Ahead(lanes, 0, a), b, Ahead(lanes, 0, b))
  {
    assert lanes[|lanes|..] == [] && lanes[0..] == lanes;
    var posts := Posts(lanes, size);
    if !Named(lanes, b) {
      CountAbsent(lanes, size, b);
      CountPrefix(posts, n, b);
    } else if !Named(lanes, a) {
      CountAbsent(lanes, size, a);
      CountPrefix(posts, n, a);
    }
  }

  lemma {:induction false} CountPrefix(posts: seq<Lane>, n: nat, req: string)
    requires n <= |posts|
    ensures Count(posts[..n], req) <= Count(posts, req)
  {
    if n > 0 {
      assert posts[..n][1..] == posts[1..][..n - 1];
      CountPrefix(posts[1..], n - 1, req);
    }
  }

  /** At any point of a flush, the requests have had as many chunks posted as each other, give or
      take one, except those with nothing more to post. */
  lemma PostsFair(lanes: seq<Lane>, size: nat, n: nat, a: string, b: string)
    requires size > 0 && Distinct(lanes) && n <= |Posts(lanes, size)|
    ensures var posts := Posts(lanes, size);
            || Count(posts[..n], a) <= Count(posts[..n], b) + 1
            || Count(posts[..n], b) == Count(posts, b)
  {
    hide Posts;
    Rotates(lanes, size, |lanes|, n, a, b);
    assert lanes[|lanes|..] == [];
  }

  function Filtered(items: seq<Item>, req: string): seq<Item> {
    if items == [] then []
    else
      var last := |items| - 1;
      Filtered(items[..last], req) + if items[last].req == req then [items[last]] else []
  }

  lemma {:induction false} JoinedRest(lanes: seq<Lane>, item: Item, req: string)
    requires Distinct(lanes)
    ensures Distinct(Joined(lanes, item))
    ensures forall other :: Named(Joined(lanes, item), other) <==> Named(lanes, other) || other == item.req
    ensures RestOf(Joined(lanes, item), req) == RestOf(lanes, req) + if item.req == req then [item] else []
  {
    var joined := Joined(lanes, item);
    if lanes == [] {
      assert joined[0].req == item.req && joined[1..] == [];
      assert RestOf(joined, req) == if item.req == req then [item] else [];
    } else {
      DistinctTail(lanes);
      forall other ensures Named(lanes, other) <==> lanes[0].req == other || Named(lanes[1..], other) {
        NamedFirst(lanes, other);
      }
      forall other ensures Named(joined, other) <==> joined[0].req == other || Named(joined[1..], other) {
        NamedFirst(joined, other);
      }
      if lanes[0].req == item.req {
        assert joined[1..] == lanes[1..];
        JoinedDistinct(joined);
        assert RestOf(lanes, req) + [] == RestOf(lanes, req);
      } else {
        JoinedRest(lanes[1..], item, req);
        assert joined[1..] == Joined(lanes[1..], item);
        JoinedDistinct(joined);
        assert lanes[0].rest + [] == lanes[0].rest;
      }
    }
  }

  lemma JoinedDistinct(lanes: seq<Lane>)
    requires lanes != [] && Distinct(lanes[1..]) && !Named(lanes[1..], lanes[0].req)
    ensures Distinct(lanes)
  {
    forall i, j | 0 <= i < j < |lanes| ensures lanes[i].req != lanes[j].req {
      assert lanes[1..][j - 1] == lanes[j];
      if i > 0 {
        assert lanes[1..][i - 1] == lanes[i];
      }
    }
  }

  lemma {:induction false} GroupedRest(items: seq<Item>, req: string)
    ensures Distinct(Grouped(items)) && RestOf(Grouped(items), req) == Filtered(items, req)
  {
    if items != [] {
      var last := |items| - 1;
      GroupedRest(items[..last], req);
      JoinedRest(Grouped(items[..last]), items[last], req);
    }
  }

  predicate Own(lane: Lane) {
    forall item :: item in lane.rest ==> item.req == lane.req
  }

  predicate AllOwn(lanes: seq<Lane>) {
    forall i :: 0 <= i < |lanes| ==> Own(lanes[i])
  }

  lemma {:induction false} JoinedOwn(lanes: seq<Lane>, item: Item)
    requires AllOwn(lanes)
    ensures AllOwn(Joined(lanes, item))
  {
    if lanes != [] && lanes[0].req != item.req {
      JoinedOwn(lanes[1..], item);
    }
  }

  lemma {:induction false} GroupedOwn(items: seq<Item>)
    ensures AllOwn(Grouped(items))
  {
    if items != [] {
      GroupedOwn(items[..|items| - 1]);
      JoinedOwn(Grouped(items[..|items| - 1]), items[|items| - 1]);
    }
  }

  /** Every chunk holds keys of one request only. */
  lemma {:induction false} PostsOwn(lanes: seq<Lane>, size: nat)
    requires size > 0 && AllOwn(lanes)
    ensures AllOwn(Posts(lanes, size))
    decreases Pending(lanes), |lanes|
  {
    if lanes != [] {
      if lanes[0].rest == [] {
        PostsOwn(lanes[1..], size);
      } else {
        assert Own(lanes[0]);
        assert Own(Lane(lanes[0].req, Rest(lanes[0].rest, size)));
        assert Own(Lane(lanes[0].req, First(lanes[0].rest, size)));
        PostsOwn(Rotated(lanes, size), size);
      }
    }
  }

  /** A flush posts exactly the keys of its step: per request all of them, in their order. */
  lemma FlushPostsAll(batch: seq<Item>, size: nat, req: string)
    requires size > 0
    ensures ItemsFor(Posts(Grouped(batch), size), req) == Filtered(batch, req)
    ensures AllOwn(Posts(Grouped(batch), size))
  {
    GroupedOwn(batch);
    PostsOwn(Grouped(batch), size);
    GroupedRest(batch, req);
    PostsComplete(Grouped(batch), size, req);
  }
}
