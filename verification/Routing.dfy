/** The order expert routing puts assignments in: a stable sort of the flat (token, slot) index by
    expert, with invalid assignments left out.
 */
module Routing {
  /** How often an expert is assigned. */
  function CountEq(ids: seq<int>, e: int): nat {
    if ids == [] then 0
    else CountEq(ids[..|ids| - 1], e) + if ids[|ids| - 1] == e then 1 else 0
  }

  /** How many valid assignments go to smaller experts. */
  function CountLess(ids: seq<int>, e: int): nat {
    if ids == [] then 0
    else CountLess(ids[..|ids| - 1], e) + if 0 <= ids[|ids| - 1] < e then 1 else 0
  }

  predicate Active(ids: seq<int>, experts: nat, i: int) {
    0 <= i < |ids| && 0 <= ids[i] < experts
  }

  /** The place of an assignment in the stable order by (expert, flat index). */
  function Place(ids: seq<int>, i: nat): nat
    requires i < |ids|
  {
    CountLess(ids, ids[i]) + CountEq(ids[..i], ids[i])
  }

  lemma EqSnoc(ids: seq<int>, x: int, e: int)
    ensures CountEq(ids + [x], e) == CountEq(ids, e) + if x == e then 1 else 0
  {
    assert (ids + [x])[..|ids|] == ids;
  }

  lemma {:induction false} EqConcat(a: seq<int>, b: seq<int>, e: int)
    ensures CountEq(a + b, e) == CountEq(a, e) + CountEq(b, e)
  {
    if b == [] {
      assert a + b == a;
    } else {
      assert (a + b)[..|a + b| - 1] == a + b[..|b| - 1];
      EqConcat(a, b[..|b| - 1], e);
    }
  }

  lemma {:induction false} EqPrefix(ids: seq<int>, i: nat, e: int)
    requires i <= |ids|
    ensures CountEq(ids[..i], e) <= CountEq(ids, e)
    ensures i < |ids| && ids[i] == e ==> CountEq(ids[..i], e) < CountEq(ids, e)
  {
    assert ids == ids[..i] + ids[i..];
    EqConcat(ids[..i], ids[i..], e);
    if i < |ids| {
      assert ids[i..] == [ids[i]] + ids[i + 1..];
      EqConcat([ids[i]], ids[i + 1..], e);
      EqSnoc([], ids[i], e);
      assert [] + [ids[i]] == [ids[i]];
    }
  }

  lemma {:induction false} LessStep(ids: seq<int>, e: int)
    requires e >= 0
    ensures CountLess(ids, e + 1) == CountLess(ids, e) + CountEq(ids, e)
  {
    if ids != [] {
      LessStep(ids[..|ids| - 1], e);
    }
  }

  lemma {:induction false} LessMonotone(ids: seq<int>, a: int, b: int)
    requires 0 <= a < b
    ensures CountLess(ids, a) + CountEq(ids, a) <= CountLess(ids, b)
    decreases b - a
  {
    LessStep(ids, b - 1);
    if a < b - 1 {
      LessMonotone(ids, a, b - 1);
    }
    LessStep(ids, a);
  }

  /** Places respect the order by (expert, flat index), so different assignments have different places. */
  lemma PlaceOrders(ids: seq<int>, experts: nat, i: nat, j: nat)
    requires Active(ids, experts, i) && Active(ids, experts, j)
    requires ids[i] < ids[j] || (ids[i] == ids[j] && i < j)
    ensures Place(ids, i) < Place(ids, j)
  {
    EqPrefix(ids, i, ids[i]);
    if ids[i] < ids[j] {
      LessMonotone(ids, ids[i], ids[j]);
    } else {
      assert ids[..j][..i] == ids[..i];
      EqPrefix(ids[..j], i, ids[i]);
    }
  }

  lemma PlaceInjective(ids: seq<int>, experts: nat, i: nat, j: nat)
    requires Active(ids, experts, i) && Active(ids, experts, j) && i != j
    ensures Place(ids, i) != Place(ids, j)
  {
    if ids[i] < ids[j] || (ids[i] == ids[j] && i < j) {
      PlaceOrders(ids, experts, i, j);
    } else {
      PlaceOrders(ids, experts, j, i);
    }
  }

  lemma PlaceBounded(ids: seq<int>, experts: nat, i: nat)
    requires Active(ids, experts, i)
    ensures Place(ids, i) < CountLess(ids, experts) <= |ids|
  {
    EqPrefix(ids, i, ids[i]);
    LessMonotone(ids, ids[i], experts);
    LessAtMost(ids, experts);
  }

  lemma {:induction false} LessAtMost(ids: seq<int>, e: int)
    ensures CountLess(ids, e) <= |ids|
  {
    if ids != [] {
      LessAtMost(ids[..|ids| - 1], e);
    }
  }

  /** Insertion sort, standing for the kernels' vector sort. */
  function Inserted(x: int, s: seq<int>): seq<int> {
    if s == [] || x <= s[0] then [x] + s else [s[0]] + Inserted(x, s[1..])
  }

  function Sorted(s: seq<int>): seq<int> {
    if s == [] then [] else Inserted(s[|s| - 1], Sorted(s[..|s| - 1]))
  }

  predicate Ascending(s: seq<int>) {
    forall i, j :: 0 <= i < j < |s| ==> s[i] <= s[j]
  }

  lemma {:induction false} InsertedAscending(x: int, s: seq<int>)
    requires Ascending(s)
    ensures Ascending(Inserted(x, s)) && |Inserted(x, s)| == |s| + 1
    ensures forall y :: y in Inserted(x, s) <==> y == x || y in s
  {
    if s != [] && x > s[0] {
      assert Ascending(s[1..]);
      InsertedAscending(x, s[1..]);
      var rest := Inserted(x, s[1..]);
      assert s == [s[0]] + s[1..];
      forall i, j | 0 <= i < j < |rest| + 1 ensures ([s[0]] + rest)[i] <= ([s[0]] + rest)[j] {
        if i == 0 {
          assert rest[j - 1] in rest;
          assert rest[j - 1] == x || rest[j - 1] in s[1..];
        }
      }
    }
  }

  lemma {:induction false} SortedAscending(s: seq<int>)
    ensures Ascending(Sorted(s)) && |Sorted(s)| == |s|
    ensures forall y :: y in Sorted(s) <==> y in s
  {
    if s != [] {
      var last := |s| - 1;
      SortedAscending(s[..last]);
      InsertedAscending(s[last], Sorted(s[..last]));
      assert s == s[..last] + [s[last]];
    }
  }

  /** How many values lie in a range. */
  function InRange(s: seq<int>, lo: int, hi: int): nat {
    if s == [] then 0 else InRange(s[..|s| - 1], lo, hi) + if lo <= s[|s| - 1] < hi then 1 else 0
  }

  lemma {:induction false} InRangeConcat(a: seq<int>, b: seq<int>, lo: int, hi: int)
    ensures InRange(a + b, lo, hi) == InRange(a, lo, hi) + InRange(b, lo, hi)
  {
    if b == [] {
      assert a + b == a;
    } else {
      assert (a + b)[..|a + b| - 1] == a + b[..|b| - 1];
      InRangeConcat(a, b[..|b| - 1], lo, hi);
    }
  }

  lemma InRangeOne(x: int, lo: int, hi: int)
    ensures InRange([x], lo, hi) == if lo <= x < hi then 1 else 0
  {
    assert [x][..0] == [];
  }

  lemma {:induction false} InsertedCounts(x: int, s: seq<int>, lo: int, hi: int)
    ensures InRange(Inserted(x, s), lo, hi) == InRange(s, lo, hi) + if lo <= x < hi then 1 else 0
  {
    InRangeOne(x, lo, hi);
    if s == [] || x <= s[0] {
      InRangeConcat([x], s, lo, hi);
    } else {
      InsertedCounts(x, s[1..], lo, hi);
      InRangeConcat([s[0]], Inserted(x, s[1..]), lo, hi);
      InRangeConcat([s[0]], s[1..], lo, hi);
      assert [s[0]] + s[1..] == s;
    }
  }

  /** Sorting keeps how many values lie in a range. */
  lemma {:induction false} SortedCounts(s: seq<int>, lo: int, hi: int)
    ensures InRange(Sorted(s), lo, hi) == InRange(s, lo, hi)
  {
    if s != [] {
      SortedCounts(s[..|s| - 1], lo, hi);
      InsertedCounts(s[|s| - 1], Sorted(s[..|s| - 1]), lo, hi);
    }
  }

  lemma {:induction false} InRangeNone(s: seq<int>, lo: int, hi: int)
    requires forall i :: 0 <= i < |s| ==> !(lo <= s[i] < hi)
    ensures InRange(s, lo, hi) == 0
  {
    if s != [] {
      InRangeNone(s[..|s| - 1], lo, hi);
    }
  }

  lemma {:induction false} InRangeAll(s: seq<int>, lo: int, hi: int)
    requires forall i :: 0 <= i < |s| ==> lo <= s[i] < hi
    ensures InRange(s, lo, hi) == |s|
  {
    if s != [] {
      InRangeAll(s[..|s| - 1], lo, hi);
    }
  }

  lemma {:induction false} InRangeSplit(s: seq<int>, k: nat, lo: int, hi: int)
    requires k < |s|
    ensures InRange(s, lo, hi) ==
              InRange(s[..k], lo, hi) + (if lo <= s[k] < hi then 1 else 0) + InRange(s[k + 1..], lo, hi)
  {
    assert s == s[..k] + ([s[k]] + s[k + 1..]);
    InRangeConcat(s[..k], [s[k]] + s[k + 1..], lo, hi);
    InRangeConcat([s[k]], s[k + 1..], lo, hi);
    InRangeOne(s[k], lo, hi);
  }

  lemma Twice(t: seq<int>, j: nat, k: nat)
    requires j < k < |t| && t[j] == t[k]
    ensures InRange(t, t[k], t[k] + 1) >= 2
  {
    hide InRange;
    InRangeSplit(t, k, t[k], t[k] + 1);
    InRangeSplit(t[..k], j, t[k], t[k] + 1);
  }

  /** A value that occurs once is, sorted, behind exactly the smaller ones. */
  lemma RankIsCount(s: seq<int>, t: seq<int>, lo: int, k: nat)
    requires t == Sorted(s) && k < |t| && lo <= t[k] && InRange(s, t[k], t[k] + 1) == 1
    ensures InRange(t[..k], lo, t[k]) == InRange(s, lo, t[k])
    ensures forall j :: 0 <= j < k ==> t[j] < t[k]
  {
    SortedAscending(s);
    var v := t[k];
    SortedCounts(s, lo, v);
    SortedCounts(s, v, v + 1);
    hide Sorted, InRange;
    InRangeSplit(t, k, lo, v);
    InRangeNone(t[k + 1..], lo, v);
    forall j | 0 <= j < k ensures t[j] < v {
      if t[j] == v {
        Twice(t, j, k);
      }
    }
  }
}
