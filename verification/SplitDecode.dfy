/** Sparse attention decode over exact reals: the online softmax over blocks of a query's cache slots,
    and its split over programs whose partial states a second kernel merges.

    One head and one component of the value are modelled; `e` is the exponential.
 */
module SplitDecode {
  import opened Wrappers

  /** A slot of the query's list: whether it names a cache row, its score and the row's value. */
  datatype Item = Item(valid: bool, score: real, value: real)

  /** The running maximum, sum and weighted sum of the online softmax. */
  datatype State = State(m: real, l: real, acc: real)

  /** The kernels' stand-in for minus infinity, the lowest finite 32-bit float. */
  const NEG_LARGE: real := -340282346638528860000000000000000000000.0

  const TINY: real := 0.000000000000000000000000000001

  ghost predicate IsExp(e: real -> real) {
    && e(0.0) == 1.0
    && (forall x :: e(x) > 0.0)
    && forall x, y :: e(x) * e(y) == e(x + y)
  }

  lemma ExpAdds(e: real -> real, x: real, y: real)
    requires IsExp(e)
    ensures e(x + y) == e(x) * e(y)
  {
  }

  lemma ExpPositive(e: real -> real, x: real)
    requires IsExp(e)
    ensures e(x) > 0.0
  {
  }

  lemma ExpZero(e: real -> real)
    requires IsExp(e)
    ensures e(0.0) == 1.0
  {
  }

  function Max(a: real, b: real): real {
    if a >= b then a else b
  }

  function ScoreOf(it: Item): real {
    if it.valid then it.score else NEG_LARGE
  }

  function Weight(e: real -> real, it: Item, m: real): real {
    if it.valid then e(it.score - m) else 0.0
  }

  /** The largest score, invalid slots counting as the sentinel. */
  function MaxScore(items: seq<Item>): real {
    if items == [] then NEG_LARGE else Max(MaxScore(items[..|items| - 1]), ScoreOf(items[|items| - 1]))
  }

  /** The sum of the valid slots' weights relative to m. */
  function Weights(e: real -> real, items: seq<Item>, m: real): real {
    if items == [] then 0.0
    else Weights(e, items[..|items| - 1], m) + Weight(e, items[|items| - 1], m)
  }

  /** The sum of the valid slots' values, weighted relative to m. */
  function Values(e: real -> real, items: seq<Item>, m: real): real {
    if items == [] then 0.0
    else Values(e, items[..|items| - 1], m) + Weight(e, items[|items| - 1], m) * items[|items| - 1].value
  }

  lemma {:induction false} Concats(e: real -> real, a: seq<Item>, b: seq<Item>, m: real)
    ensures MaxScore(a + b) == Max(MaxScore(a), MaxScore(b))
    ensures Weights(e, a + b, m) == Weights(e, a, m) + Weights(e, b, m)
    ensures Values(e, a + b, m) == Values(e, a, m) + Values(e, b, m)
  {
    hide Weight, ScoreOf;
    if b == [] {
      assert a + b == a;
      MaxAtLeast(a);
    } else {
      assert (a + b)[..|a + b| - 1] == a + b[..|b| - 1];
      Concats(e, a, b[..|b| - 1], m);
    }
  }

  lemma {:induction false} MaxAtLeast(items: seq<Item>)
    ensures MaxScore(items) >= NEG_LARGE
  {
    if items != [] {
      MaxAtLeast(items[..|items| - 1]);
    }
  }

  lemma ShiftWeight(e: real -> real, it: Item, m: real, m': real)
    requires IsExp(e)
    ensures Weight(e, it, m') == Weight(e, it, m) * e(m - m')
  {
    if it.valid {
      ExpAdds(e, it.score - m, m - m');
      assert it.score - m + (m - m') == it.score - m';
    }
  }

  lemma Distribute(a: real, b: real, w: real, v: real, f: real)
    ensures (a + w) * f == a * f + w * f
    ensures (b + w * v) * f == b * f + (w * f) * v
  {
  }

  /** Moving the reference maximum scales both sums by the same factor. */
  lemma {:induction false} Shifts(e: real -> real, items: seq<Item>, m: real, m': real)
    requires IsExp(e)
    ensures Weights(e, items, m') == Weights(e, items, m) * e(m - m')
    ensures Values(e, items, m') == Values(e, items, m) * e(m - m')
  {
    hide IsExp;
    if items != [] {
      var last := |items| - 1;
      Shifts(e, items[..last], m, m');
      ShiftWeight(e, items[last], m, m');
      Distribute(Weights(e, items[..last], m), Values(e, items[..last], m), Weight(e, items[last], m),
                 items[last].value, e(m - m'));
    }
  }

  /** A state that has taken in exactly these slots. */
  ghost predicate Took(e: real -> real, st: State, items: seq<Item>) {
    && st.m == MaxScore(items) && st.l == Weights(e, items, st.m) && st.acc == Values(e, items, st.m)
  }

  /** The lanes of one block: slots from `at` on, invalid past the end of the segment. */
  function Lanes(items: seq<Item>, at: nat, hi: nat, block: nat): (lanes: seq<Item>)
    requires at <= hi <= |items|
  {
    items[at..if at + block < hi then at + block else hi]
    + seq(if at + block < hi then 0 else at + block - hi, i => Item(false, 0.0, 0.0))
  }

  lemma {:induction false} PaddingAddsNothing(e: real -> real, n: nat, m: real)
    ensures var padding := seq(n, i => Item(false, 0.0, 0.0));
            MaxScore(padding) == NEG_LARGE && Weights(e, padding, m) == 0.0 && Values(e, padding, m) == 0.0
  {
    var padding := seq(n, i => Item(false, 0.0, 0.0));
    if n > 0 {
      PaddingAddsNothing(e, n - 1, m);
      assert padding[..n - 1] == seq(n - 1, i => Item(false, 0.0, 0.0));
    }
  }

  /** The padded block stands for its slots alone. */
  lemma LanesAre(e: real -> real, items: seq<Item>, at: nat, hi: nat, block: nat, m: real)
    requires at <= hi <= |items|
    ensures var part, lanes := items[at..if at + block < hi then at + block else hi], Lanes(items, at, hi, block);
            && MaxScore(lanes) == MaxScore(part)
            && Weights(e, lanes, m) == Weights(e, part, m) && Values(e, lanes, m) == Values(e, part, m)
  {
    var part := items[at..if at + block < hi then at + block else hi];
    var n := if at + block < hi then 0 else at + block - hi;
    PaddingAddsNothing(e, n, m);
    Concats(e, part, seq(n, i => Item(false, 0.0, 0.0)), m);
    MaxAtLeast(part);
  }

  /** One block's update takes in the block's slots. */
  lemma BlockTakes(e: real -> real, st: State, taken: seq<Item>, part: seq<Item>, next: State)
    requires IsExp(e) && Took(e, st, taken)
    requires next.m == Max(st.m, MaxScore(part))
    requires next.l == st.l * e(st.m - next.m) + Weights(e, part, next.m)
    requires next.acc == st.acc * e(st.m - next.m) + Values(e, part, next.m)
    ensures Took(e, next, taken + part)
  {
    hide IsExp, MaxScore, Weights, Values;
    Concats(e, taken, part, next.m);
    Shifts(e, taken, st.m, next.m);
  }

  lemma Sliced(taken: seq<Item>, items: seq<Item>, lo: nat, mid: nat, hi: nat)
    requires lo <= mid <= hi <= |items|
    ensures taken + items[lo..mid] + items[mid..hi] == taken + items[lo..hi]
  {
    assert items[lo..mid] + items[mid..hi] == items[lo..hi];
  }

  /** The loop over one segment's blocks. */
  method TakeSegment(e: real -> real, items: seq<Item>, lo: nat, hi: nat, block: nat, st: State, ghost taken: seq<Item>)
      returns (next: State)
    requires IsExp(e) && lo <= hi <= |items| && block > 0 && Took(e, st, taken)
    ensures Took(e, next, taken + items[lo..hi])
  {
    hide IsExp, Took;
    next := st;
    var at := lo;
    ghost var sofar := taken;
    assert taken + items[lo..lo] == taken;
    while at < hi
      invariant lo <= at <= hi
      invariant sofar == taken + items[lo..at] && Took(e, next, sofar)
      decreases hi - at
    {
      var lanes := Lanes(items, at, hi, block);
      var end := if at + block < hi then at + block else hi;
      var mNew := Max(next.m, MaxScore(lanes));
      var alpha := e(next.m - mNew);
      LanesAre(e, items, at, hi, block, mNew);
      var after := State(mNew, next.l * alpha + Weights(e, lanes, mNew), next.acc * alpha + Values(e, lanes, mNew));
      BlockTakes(e, next, sofar, items[at..end], after);
      Sliced(taken, items, lo, at, end);
      next, sofar, at := after, sofar + items[at..end], end;
    }
  }

  /** The attention output by definition, given the maximum over all slots. */
  function Decode(e: real -> real, items: seq<Item>, sink: Option<real>): real {
    var m := if sink.Some? then Max(MaxScore(items), sink.value) else MaxScore(items);
    var l := Weights(e, items, m) + if sink.Some? then e(sink.value - m) else 0.0;
    if l > 0.0 then Values(e, items, m) / Max(l, TINY) else 0.0
  }

  /** The sink's share and the quotient, from a state that has taken in all slots. */
  method Normalize(e: real -> real, st: State, sink: Option<real>, ghost items: seq<Item>) returns (out: real)
    requires IsExp(e) && Took(e, st, items)
    ensures out == Decode(e, items, sink)
  {
    hide IsExp, MaxScore, Weights, Values;
    if sink.Some? {
      var mFinal := Max(st.m, sink.value);
      var alpha := e(st.m - mFinal);
      var lFinal := st.l * alpha + e(sink.value - mFinal);
      var denom := Max(lFinal, TINY);
      Shifts(e, items, st.m, mFinal);
      out := if lFinal > 0.0 then st.acc * alpha / denom else 0.0;
    } else {
      var denom := Max(st.l, TINY);
      out := if st.l > 0.0 then st.acc / denom else 0.0;
    }
  }

  /** The single-pass kernel: main slots, then extra ones, then the sink and the quotient. */
  method DecodeRagged(e: real -> real, main: seq<Item>, extra: seq<Item>, sink: Option<real>, block: nat)
      returns (out: real)
    requires IsExp(e) && block > 0
    ensures out == Decode(e, main + extra, sink)
  {
    hide IsExp, Took, Decode;
    var st := State(NEG_LARGE, 0.0, 0.0);
    NothingTaken(e);
    st := TakeSegment(e, main, 0, |main|, block, st, []);
    assert [] + main[0..|main|] == main && extra[0..|extra|] == extra;
    st := TakeSegment(e, extra, 0, |extra|, block, st, main);
    out := Normalize(e, st, sink, main + extra);
  }

  lemma NothingTaken(e: real -> real)
    ensures Took(e, State(NEG_LARGE, 0.0, 0.0), [])
  {
  }

  /** A program's slice of a segment: where it ends, and that of its predecessors. */
  function SliceEnd(len: nat, splits: nat, id: nat): nat
    requires splits > 0
  {
    var chunk := (len + splits - 1) / splits;
    if id * chunk < len then id * chunk else len
  }

  lemma SliceStep(len: nat, splits: nat, id: nat)
    requires splits > 0
    ensures var chunk := (len + splits - 1) / splits;
            var lo := id * chunk;
            var hi := if lo + chunk < len then lo + chunk else len;
            && SliceEnd(len, splits, id) <= SliceEnd(len, splits, id + 1) <= len
            && (lo < hi ==> lo == SliceEnd(len, splits, id) && hi == SliceEnd(len, splits, id + 1))
            && (lo >= hi ==> SliceEnd(len, splits, id) == SliceEnd(len, splits, id + 1))
    ensures SliceEnd(len, splits, 0) == 0 && SliceEnd(len, splits, splits) == len
  {
    var chunk := (len + splits - 1) / splits;
    assert (id + 1) * chunk == id * chunk + chunk;
    assert splits * chunk >= len;
  }

  function Slice(items: seq<Item>, splits: nat, id: nat): seq<Item>
    requires splits > 0
  {
    SliceStep(|items|, splits, id);
    items[SliceEnd(|items|, splits, id)..SliceEnd(|items|, splits, id + 1)]
  }

  method TakeSlice(e: real -> real, items: seq<Item>, splits: nat, id: nat, block: nat, st: State,
                   ghost taken: seq<Item>)
      returns (next: State)
    requires IsExp(e) && splits > 0 && block > 0 && Took(e, st, taken)
    ensures Took(e, next, taken + Slice(items, splits, id))
  {
    hide IsExp, Took, SliceEnd;
    SliceStep(|items|, splits, id);
    var chunk := (|items| + splits - 1) / splits;
    var lo := id * chunk;
    var hi := if lo + chunk < |items| then lo + chunk else |items|;
    if lo < hi {
      next := TakeSegment(e, items, lo, hi, block, st, taken);
    } else {
      assert taken + Slice(items, splits, id) == taken;
      next := st;
    }
  }

  /** One program of the split: its slice of the main slots, then its slice of the extra ones. */
  method DecodePartial(e: real -> real, main: seq<Item>, extra: seq<Item>, splits: nat, id: nat, block: nat)
      returns (st: State)
    requires IsExp(e) && splits > 0 && block > 0
    ensures Took(e, st, Slice(main, splits, id) + Slice(extra, splits, id))
  {
    hide IsExp, Took, SliceEnd, Slice;
    st := State(NEG_LARGE, 0.0, 0.0);
    NothingTaken(e);
    st := TakeSlice(e, main, splits, id, block, st, []);
    assert [] + Slice(main, splits, id) == Slice(main, splits, id);
    st := TakeSlice(e, extra, splits, id, block, st, Slice(main, splits, id));
  }

  function MaxOf(parts: seq<State>): real {
    if parts == [] then NEG_LARGE else Max(MaxOf(parts[..|parts| - 1]), parts[|parts| - 1].m)
  }

  function MergedSum(e: real -> real, parts: seq<State>, m: real): real {
    if parts == [] then 0.0
    else MergedSum(e, parts[..|parts| - 1], m) + e(parts[|parts| - 1].m - m) * parts[|parts| - 1].l
  }

  function MergedAcc(e: real -> real, parts: seq<State>, m: real): real {
    if parts == [] then 0.0
    else MergedAcc(e, parts[..|parts| - 1], m) + e(parts[|parts| - 1].m - m) * parts[|parts| - 1].acc
  }

  /** Part i has taken in the i-th slices. */
  ghost predicate PartsTook(e: real -> real, parts: seq<State>, main: seq<Item>, extra: seq<Item>, splits: nat)
    requires splits > 0
  {
    |parts| <= splits &&
    forall i: nat :: i < |parts| ==> Took(e, parts[i], Slice(main, splits, i) + Slice(extra, splits, i))
  }

  /** The maximum and sums over the first slices, taken segment by segment. */
  lemma SliceConcats(e: real -> real, items: seq<Item>, splits: nat, id: nat, m: real)
    requires splits > 0
    ensures SliceEnd(|items|, splits, id) <= SliceEnd(|items|, splits, id + 1) <= |items|
    ensures var a, b, s := items[..SliceEnd(|items|, splits, id)], items[..SliceEnd(|items|, splits, id + 1)],
                           Slice(items, splits, id);
            && MaxScore(b) == Max(MaxScore(a), MaxScore(s))
            && Weights(e, b, m) == Weights(e, a, m) + Weights(e, s, m)
            && Values(e, b, m) == Values(e, a, m) + Values(e, s, m)
  {
    hide MaxScore, Weights, Values, SliceEnd;
    SliceStep(|items|, splits, id);
    var a, s := items[..SliceEnd(|items|, splits, id)], Slice(items, splits, id);
    assert a + s == items[..SliceEnd(|items|, splits, id + 1)];
    Concats(e, a, s, m);
  }

  lemma TookShifts(e: real -> real, part: State, items: seq<Item>, m: real)
    requires IsExp(e) && Took(e, part, items)
    ensures part.m == MaxScore(items)
    ensures e(part.m - m) * part.l == Weights(e, items, m) && e(part.m - m) * part.acc == Values(e, items, m)
  {
    hide IsExp, MaxScore, Weights, Values;
    Shifts(e, items, part.m, m);
  }

  /** One part's share of the merge is its slices' sums. */
  lemma PartShare(e: real -> real, part: State, s: seq<Item>, t: seq<Item>, m: real)
    requires IsExp(e) && Took(e, part, s + t)
    ensures part.m == Max(MaxScore(s), MaxScore(t))
    ensures e(part.m - m) * part.l == Weights(e, s, m) + Weights(e, t, m)
    ensures e(part.m - m) * part.acc == Values(e, s, m) + Values(e, t, m)
  {
    hide IsExp, MaxScore, Weights, Values, Took;
    TookShifts(e, part, s + t, m);
    Concats(e, s, t, m);
  }

  /** The parts merge to the maximum and the sums over the given slots of both segments. */
  ghost predicate MergeIs(e: real -> real, parts: seq<State>, a: seq<Item>, b: seq<Item>, m: real) {
    && MaxOf(parts) == Max(MaxScore(a), MaxScore(b))
    && MergedSum(e, parts, m) == Weights(e, a, m) + Weights(e, b, m)
    && MergedAcc(e, parts, m) == Values(e, a, m) + Values(e, b, m)
  }

  function FirstSlices(items: seq<Item>, splits: nat, n: nat): seq<Item>
    requires splits > 0
  {
    SliceStep(|items|, splits, n);
    items[..SliceEnd(|items|, splits, n)]
  }

  lemma MergeNone(e: real -> real, main: seq<Item>, extra: seq<Item>, splits: nat, m: real)
    requires splits > 0
    ensures MergeIs(e, [], FirstSlices(main, splits, 0), FirstSlices(extra, splits, 0), m)
  {
    SliceStep(|main|, splits, 0);
    SliceStep(|extra|, splits, 0);
    assert main[..0] == [] && extra[..0] == [];
  }

  lemma MergeNext(e: real -> real, parts: seq<State>, part: State, main: seq<Item>, extra: seq<Item>, splits: nat,
                  m: real)
    requires IsExp(e) && splits > 0
    requires MergeIs(e, parts, FirstSlices(main, splits, |parts|), FirstSlices(extra, splits, |parts|), m)
    requires Took(e, part, Slice(main, splits, |parts|) + Slice(extra, splits, |parts|))
    ensures MergeIs(e, parts + [part], FirstSlices(main, splits, |parts| + 1),
                    FirstSlices(extra, splits, |parts| + 1), m)
  {
    hide IsExp, Slice, SliceEnd, MaxScore, Weights, Values, Took;
    var n := |parts|;
    assert (parts + [part])[..n] == parts;
    PartShare(e, part, Slice(main, splits, n), Slice(extra, splits, n), m);
    SliceConcats(e, main, splits, n, m);
    SliceConcats(e, extra, splits, n, m);
  }

  /** Merging the first n parts gives the maximum and the sums over the first n slices of both segments. */
  lemma {:induction false} Merges(e: real -> real, parts: seq<State>, main: seq<Item>, extra: seq<Item>, splits: nat,
                                  m: real)
    requires IsExp(e) && splits > 0 && PartsTook(e, parts, main, extra, splits)
    ensures MergeIs(e, parts, FirstSlices(main, splits, |parts|), FirstSlices(extra, splits, |parts|), m)
    decreases |parts|
  {
    hide IsExp, Slice, FirstSlices, MergeIs, Took;
    if parts == [] {
      MergeNone(e, main, extra, splits, m);
    } else {
      var last := |parts| - 1;
      Merges(e, parts[..last], main, extra, splits, m);
      assert Took(e, parts[last], Slice(main, splits, last) + Slice(extra, splits, last));
      MergeNext(e, parts[..last], parts[last], main, extra, splits, m);
      assert parts[..last] + [parts[last]] == parts;
    }
  }

  /** The reduce kernel: the common maximum, the weighted sums over the splits, the sink, the quotient. */
  method DecodeReduce(e: real -> real, parts: seq<State>, sink: Option<real>, ghost main: seq<Item>,
                      ghost extra: seq<Item>)
      returns (out: real)
    requires IsExp(e) && |parts| > 0 && PartsTook(e, parts, main, extra, |parts|)
    ensures out == Decode(e, main + extra, sink)
  {
    hide IsExp, PartsTook, Slice, MaxScore, Weights, Values;
    var mComb, s := NEG_LARGE, 0;
    while s < |parts|
      invariant s <= |parts| && mComb == MaxOf(parts[..s])
    {
      assert parts[..s + 1][..s] == parts[..s];
      mComb := Max(mComb, parts[s].m);
      s := s + 1;
    }
    assert parts[..s] == parts;
    var mFinal := if sink.Some? then Max(mComb, sink.value) else mComb;
    var lFinal := SumWeighted(e, parts, mFinal);
    if sink.Some? {
      lFinal := lFinal + e(sink.value - mFinal);
    }
    var acc := AccWeighted(e, parts, mFinal);
    MergesAll(e, parts, main, extra, mFinal);
    var denom := Max(lFinal, TINY);
    out := if lFinal > 0.0 then acc / denom else 0.0;
  }

  method SumWeighted(e: real -> real, parts: seq<State>, m: real) returns (sum: real)
    ensures sum == MergedSum(e, parts, m)
  {
    sum := 0.0;
    for s := 0 to |parts|
      invariant sum == MergedSum(e, parts[..s], m)
    {
      assert parts[..s + 1][..s] == parts[..s];
      sum := sum + e(parts[s].m - m) * parts[s].l;
    }
    assert parts[..|parts|] == parts;
  }

  method AccWeighted(e: real -> real, parts: seq<State>, m: real) returns (acc: real)
    ensures acc == MergedAcc(e, parts, m)
  {
    acc := 0.0;
    for s := 0 to |parts|
      invariant acc == MergedAcc(e, parts[..s], m)
    {
      assert parts[..s + 1][..s] == parts[..s];
      acc := acc + e(parts[s].m - m) * parts[s].acc;
    }
    assert parts[..|parts|] == parts;
  }

  lemma MergesAll(e: real -> real, parts: seq<State>, main: seq<Item>, extra: seq<Item>, m: real)
    requires IsExp(e) && |parts| > 0 && PartsTook(e, parts, main, extra, |parts|)
    ensures MaxOf(parts) == MaxScore(main + extra)
    ensures MergedSum(e, parts, m) == Weights(e, main + extra, m)
    ensures MergedAcc(e, parts, m) == Values(e, main + extra, m)
  {
    hide IsExp, PartsTook, MaxScore, Weights, Values, Slice, SliceEnd;
    Merges(e, parts, main, extra, |parts|, m);
    SliceStep(|main|, |parts|, |parts|);
    SliceStep(|extra|, |parts|, |parts|);
    assert main[..|main|] == main && extra[..|extra|] == extra;
    Concats(e, main, extra, m);
  }

  /** The split decode: every program's partial state, then the reduction. The output is the single
      pass's, for every split count, block size, segment length and pattern of invalid slots. */
  method DecodeSplit(e: real -> real, main: seq<Item>, extra: seq<Item>, sink: Option<real>, splits: nat, block: nat)
      returns (out: real)
    requires IsExp(e) && splits > 0 && block > 0
    ensures out == Decode(e, main + extra, sink)
  {
    hide IsExp, Decode, Took, Slice;
    var parts: seq<State> := [];
    for id := 0 to splits
      invariant |parts| == id && PartsTook(e, parts, main, extra, splits)
    {
      var part := DecodePartial(e, main, extra, splits, id, block);
      parts := parts + [part];
    }
    out := DecodeReduce(e, parts, sink, main, extra);
  }

  /** Some slot attains the maximum, unless the sentinel does. */
  lemma {:induction false} MaxAttained(items: seq<Item>) returns (i: int)
    ensures MaxScore(items) > NEG_LARGE ==> 0 <= i < |items| && items[i].valid && items[i].score == MaxScore(items)
    ensures (exists k :: 0 <= k < |items| && items[k].valid && items[k].score >= NEG_LARGE)
            && MaxScore(items) == NEG_LARGE ==>
              0 <= i < |items| && items[i].valid && items[i].score == NEG_LARGE
  {
    i := -1;
    if items != [] {
      var last := |items| - 1;
      i := MaxAttained(items[..last]);
      MaxAtLeast(items[..last]);
      if items[last].valid && items[last].score == MaxScore(items) {
        i := last;
      } else if MaxScore(items) == NEG_LARGE
                && exists k :: 0 <= k < |items| && items[k].valid && items[k].score >= NEG_LARGE {
        var k :| 0 <= k < |items| && items[k].valid && items[k].score >= NEG_LARGE;
        assert k < last ==> items[..last][k] == items[k];
      }
    }
  }

  lemma {:induction false} WeightsInclude(e: real -> real, items: seq<Item>, m: real, i: nat)
    requires IsExp(e)
    ensures Weights(e, items, m) >= 0.0
    ensures i < |items| ==> Weights(e, items, m) >= Weight(e, items[i], m)
  {
    if items != [] {
      var last := |items| - 1;
      WeightsInclude(e, items[..last], m, i);
      WeightsInclude(e, items[..last], m, 0);
    }
  }

  /** The attention output with no sentinel and no clamp: the softmax average of the valid values. */
  function Softmax(e: real -> real, items: seq<Item>, sink: Option<real>): real
    requires Weights(e, items, 0.0) + (if sink.Some? then e(sink.value) else 0.0) > 0.0
  {
    Values(e, items, 0.0) / (Weights(e, items, 0.0) + if sink.Some? then e(sink.value) else 0.0)
  }

  predicate SomeValid(items: seq<Item>) {
    exists i :: 0 <= i < |items| && items[i].valid
  }

  predicate AboveSentinel(items: seq<Item>) {
    forall i :: 0 <= i < |items| && items[i].valid ==> items[i].score >= NEG_LARGE
  }

  lemma QuotientScales(v: real, w: real, f: real)
    requires w > 0.0 && f > 0.0
    ensures w * f > 0.0 && v * f / (w * f) == v / w
  {
    var q := v / w;
    assert q * (w * f) == v * f;
  }

  /** Relative to its own maximum the largest weight is one, so the denominator is never clamped. */
  lemma SumAtLeastOne(e: real -> real, items: seq<Item>, sink: Option<real>)
    requires IsExp(e) && AboveSentinel(items) && (SomeValid(items) || sink.Some?)
    requires sink.Some? ==> sink.value >= NEG_LARGE
    ensures var m := if sink.Some? then Max(MaxScore(items), sink.value) else MaxScore(items);
            Weights(e, items, m) + (if sink.Some? then e(sink.value - m) else 0.0) >= 1.0
  {
    var m := if sink.Some? then Max(MaxScore(items), sink.value) else MaxScore(items);
    ExpZero(e);
    WeightsInclude(e, items, m, 0);
    MaxAtLeast(items);
    if sink.Some? {
      ExpPositive(e, sink.value - m);
    }
    if sink.None? || sink.value < m {
      hide IsExp;
      var i := MaxAttained(items);
      WeightsInclude(e, items, m, i);
      assert items[i].score - m == 0.0;
    } else {
      assert sink.value - m == 0.0;
    }
  }

  /** For scores at or above the sentinel the output, of either kernel, is the softmax average itself. */
  lemma DecodeIsSoftmax(e: real -> real, items: seq<Item>, sink: Option<real>)
    requires IsExp(e) && AboveSentinel(items) && (SomeValid(items) || sink.Some?)
    requires sink.Some? ==> sink.value >= NEG_LARGE
    ensures Weights(e, items, 0.0) + (if sink.Some? then e(sink.value) else 0.0) > 0.0
    ensures Decode(e, items, sink) == Softmax(e, items, sink)
  {
    hide IsExp, MaxScore, Weights, Values;
    var m := if sink.Some? then Max(MaxScore(items), sink.value) else MaxScore(items);
    var s := if sink.Some? then e(sink.value) else 0.0;
    var f := e(0.0 - m);
    SumAtLeastOne(e, items, sink);
    Shifts(e, items, 0.0, m);
    ExpPositive(e, 0.0 - m);
    if sink.Some? {
      ExpAdds(e, sink.value, 0.0 - m);
      assert sink.value + (0.0 - m) == sink.value - m;
    }
    var w, v := Weights(e, items, 0.0), Values(e, items, 0.0);
    SumScales(w, s, f);
    QuotientScales(v, w + s, f);
  }

  lemma SumScales(w: real, s: real, f: real)
    requires f > 0.0 && w * f + s * f >= 1.0
    ensures (w + s) * f == w * f + s * f && w + s > 0.0
  {
    if w + s <= 0.0 {
      NonPositive(w + s, f);
    }
  }

  lemma NonPositive(a: real, f: real)
    requires a <= 0.0 && f > 0.0
    ensures a * f <= 0.0
  {
  }

  /** With no valid slot the output is zero. */
  lemma NothingValid(e: real -> real, items: seq<Item>, sink: Option<real>)
    requires !SomeValid(items)
    ensures Decode(e, items, sink) == 0.0
  {
    hide Decode;
    var m := if sink.Some? then Max(MaxScore(items), sink.value) else MaxScore(items);
    NoWeight(e, items, m);
    ZeroOver(e, items, sink);
  }

  lemma {:induction false} NoWeight(e: real -> real, items: seq<Item>, m: real)
    requires !SomeValid(items)
    ensures Weights(e, items, m) == 0.0 && Values(e, items, m) == 0.0
  {
    if items != [] {
      var last := |items| - 1;
      forall i | 0 <= i < last ensures !items[..last][i].valid {
        assert !items[i].valid;
      }
      NoWeight(e, items[..last], m);
    }
  }

  lemma ZeroOver(e: real -> real, items: seq<Item>, sink: Option<real>)
    requires var m := if sink.Some? then Max(MaxScore(items), sink.value) else MaxScore(items);
             Values(e, items, m) == 0.0
    ensures Decode(e, items, sink) == 0.0
  {
    hide MaxScore, Weights, Values;
  }
}
