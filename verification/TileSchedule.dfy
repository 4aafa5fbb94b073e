/** The tile schedules of the single-program routing kernel: per block size, the slots that name
    which block of which expert's slice each tile works on.
 */
module TileSchedule {
  import opened Division
  import opened Routing

  function Sum(counts: seq<nat>): nat {
    if counts == [] then 0 else Sum(counts[..|counts| - 1]) + counts[|counts| - 1]
  }

  /** Where a run starts when runs of the given lengths are laid end to end. */
  function Start(counts: seq<nat>, e: nat): nat
    requires e <= |counts|
  {
    Sum(counts[..e])
  }

  lemma StartStep(counts: seq<nat>, e: nat)
    requires e < |counts|
    ensures Start(counts, e + 1) == Start(counts, e) + counts[e]
  {
    assert counts[..e + 1][..e] == counts[..e];
  }

  lemma {:induction false} StartMonotone(counts: seq<nat>, a: nat, b: nat)
    requires a <= b <= |counts|
    ensures Start(counts, a) <= Start(counts, b)
    decreases b - a
  {
    if a < b {
      StartStep(counts, a);
      StartMonotone(counts, a + 1, b);
    }
  }

  /** The run a position lies in, and how far into it. */
  function Owner(counts: seq<nat>, t: nat): (nat, nat)
    requires t < Sum(counts)
    decreases |counts|
  {
    var last := |counts| - 1;
    if t >= Start(counts, last) then (last, t - Start(counts, last)) else Owner(counts[..last], t)
  }

  lemma {:induction false} OwnerHolds(counts: seq<nat>, t: nat)
    requires t < Sum(counts)
    ensures var (e, b) := Owner(counts, t);
            0 <= e < |counts| && 0 <= b < counts[e] && Start(counts, e) + b == t
    decreases |counts|
  {
    var last := |counts| - 1;
    if t < Start(counts, last) {
      OwnerHolds(counts[..last], t);
      var e := Owner(counts, t).0;
      assert counts[..last][..e] == counts[..e];
    }
  }

  /** Different runs do not overlap. */
  lemma OwnerUnique(counts: seq<nat>, e: nat, b: nat)
    requires e < |counts| && b < counts[e]
    ensures Start(counts, e) + b < Sum(counts) && Owner(counts, Start(counts, e) + b) == (e, b)
  {
    hide Owner;
    var t := Start(counts, e) + b;
    StartStep(counts, e);
    StartMonotone(counts, e + 1, |counts|);
    assert counts[..|counts|] == counts;
    hide Sum;
    OwnerHolds(counts, t);
    var e' := Owner(counts, t).0;
    if e' < e {
      StartStep(counts, e');
      StartMonotone(counts, e' + 1, e);
    } else if e < e' {
      StartMonotone(counts, e + 1, e');
    }
  }

  function Blocks(rows: nat, size: nat): nat
    requires size > 0
  {
    (rows + size - 1) / size
  }

  function AllBlocks(hist: seq<nat>, size: nat): (counts: seq<nat>)
    requires size > 0
    ensures |counts| == |hist| && forall e :: 0 <= e < |hist| ==> counts[e] == Blocks(hist[e], size)
  {
    seq(|hist|, e requires 0 <= e < |hist| => Blocks(hist[e], size))
  }

  lemma BlocksCover(rows: nat, size: nat, r: nat)
    requires size > 0
    ensures r < rows ==> r / size < Blocks(rows, size)
    ensures r < Blocks(rows, size) ==> r * size < rows
  {
    var n := Blocks(rows, size);
    assert n * size <= rows + size - 1 < n * size + size;
    if r < rows && r / size >= n {
      assert r / size * size <= r;
      MulLe(n, r / size, size);
    }
    if r < n {
      MulLe(r + 1, n, size);
    }
  }

  /** What a slot of a complete schedule holds: its block above its expert, or -1. */
  function Slot(hist: seq<nat>, size: nat, t: nat): int
    requires size > 0
  {
    var counts := AllBlocks(hist, size);
    if t < Sum(counts) then
      var (e, b) := Owner(counts, t);
      b * 65536 + e
    else -1
  }

  ghost predicate Scheduled(hist: seq<nat>, size: nat, slots: seq<int>)
    requires size > 0
  {
    forall t :: 0 <= t < |slots| ==> slots[t] == Slot(hist, size, t)
  }

  lemma SlotDecodes(hist: seq<nat>, size: nat, t: nat)
    requires size > 0 && |hist| <= 65536 && Slot(hist, size, t) != -1
    ensures var e, b := Slot(hist, size, t) % 65536, Slot(hist, size, t) / 65536;
            && Slot(hist, size, t) >= 0 && e < |hist| && b < Blocks(hist[e], size)
            && t == Start(AllBlocks(hist, size), e) + b
  {
    var counts := AllBlocks(hist, size);
    OwnerHolds(counts, t);
    hide Owner, Sum, Start, Blocks;
    var (e, b) := Owner(counts, t);
    assert (b * 65536 + e) % 65536 == e && (b * 65536 + e) / 65536 == b;
  }

  /** Each slot in use decodes to a block of an expert's slice; different slots to different ones. */
  lemma SlotsDecode(hist: seq<nat>, size: nat, slots: seq<int>, t: nat, u: nat)
    requires size > 0 && |hist| <= 65536 && Scheduled(hist, size, slots)
    requires t < |slots| && u < |slots| && slots[t] != -1 && slots[u] != -1
    ensures slots[t] % 65536 < |hist| && slots[t] / 65536 < Blocks(hist[slots[t] % 65536], size)
    ensures slots[t] == slots[u] ==> t == u
  {
    hide Slot, Blocks, Start;
    SlotDecodes(hist, size, t);
    SlotDecodes(hist, size, u);
  }

  predicate Covers(slot: int, size: nat, e: nat, r: nat)
    requires size > 0
  {
    slot >= 0 && slot % 65536 == e && slot / 65536 * size <= r < slot / 65536 * size + size
  }

  lemma Decoded(b: nat, e: nat)
    requires e < 65536
    ensures (b * 65536 + e) % 65536 == e && (b * 65536 + e) / 65536 == b
  {
  }

  lemma SlotOf(hist: seq<nat>, size: nat, e: nat, b: nat)
    requires size > 0 && e < |hist| && b < Blocks(hist[e], size)
    ensures var t := Start(AllBlocks(hist, size), e) + b;
            t < Sum(AllBlocks(hist, size)) && Slot(hist, size, t) == b * 65536 + e
  {
    OwnerUnique(AllBlocks(hist, size), e, b);
  }

  /** The tiles partition every expert's slice: each row of it is in exactly one tile. */
  lemma TilesPartition(hist: seq<nat>, size: nat, slots: seq<int>, e: nat, r: nat) returns (t: nat)
    requires size > 0 && |hist| <= 65536 && Scheduled(hist, size, slots)
    requires Sum(AllBlocks(hist, size)) <= |slots| && e < |hist| && r < hist[e]
    ensures t < |slots| && Covers(slots[t], size, e, r)
    ensures forall u :: 0 <= u < |slots| && Covers(slots[u], size, e, r) ==> u == t
  {
    hide Slot, Sum, Start, Blocks;
    var b := r / size;
    BlocksCover(hist[e], size, r);
    SlotOf(hist, size, e, b);
    t := Start(AllBlocks(hist, size), e) + b;
    Decoded(b, e);
    Within(r, size);
    forall u | 0 <= u < |slots| && Covers(slots[u], size, e, r) ensures u == t {
      SameTile(slots[u] / 65536, b, size, r);
      SlotsDecode(hist, size, slots, t, u);
    }
  }

  lemma Within(r: nat, size: nat)
    requires size > 0
    ensures r / size * size <= r < r / size * size + size
  {
  }

  lemma SameTile(a: int, b: int, size: nat, r: nat)
    requires size > 0 && a * size <= r < a * size + size && b * size <= r < b * size + size
    ensures a == b
  {
    if a < b {
      MulStep(a, b, size);
    } else if b < a {
      MulStep(b, a, size);
    }
  }

  /** Top-k picks no expert twice for a row. */
  predicate NoRepeats(ids: seq<int>, topK: nat) {
    forall i, j :: 0 <= i < j < |ids| && topK > 0 && i / topK == j / topK && ids[i] == ids[j] ==> ids[i] < 0
  }

  lemma LastRow(ids: seq<int>, topK: nat, rows: nat, e: nat)
    requires topK > 0 && rows > 0 && |ids| == rows * topK && NoRepeats(ids, topK)
    ensures (rows - 1) * topK + topK == |ids| && CountEq(ids[(rows - 1) * topK..], e) <= 1
  {
    var cut := (rows - 1) * topK;
    assert |ids| == cut + topK;
    var row := ids[cut..];
    forall i, j | 0 <= i < j < |row| && row[i] == row[j] ensures row[i] != e {
      SameRow(rows - 1, topK, i);
      SameRow(rows - 1, topK, j);
      assert row[i] == ids[cut + i] && row[j] == ids[cut + j];
    }
    AtMostOnce(row, e);
  }

  /** So no expert has more assignments than there are rows. */
  lemma {:induction false} HistBound(ids: seq<int>, topK: nat, rows: nat, e: nat)
    requires topK > 0 && |ids| == rows * topK && NoRepeats(ids, topK)
    ensures CountEq(ids, e) <= rows
    decreases rows
  {
    if rows > 0 {
      LastRow(ids, topK, rows, e);
      var cut := (rows - 1) * topK;
      assert ids == ids[..cut] + ids[cut..];
      EqConcat(ids[..cut], ids[cut..], e);
      HistBound(ids[..cut], topK, rows - 1, e);
    }
  }

  lemma SameRow(row: nat, topK: nat, i: nat)
    requires i < topK
    ensures (row * topK + i) / topK == row
  {
    var q := (row * topK + i) / topK;
    assert q * topK <= row * topK + i < q * topK + topK;
    SameTile(q, row, topK, row * topK + i);
  }

  lemma {:induction false} AtMostOnce(row: seq<int>, e: int)
    requires forall i, j :: 0 <= i < j < |row| && row[i] == row[j] ==> row[i] != e
    ensures CountEq(row, e) <= 1
  {
    if row != [] {
      var last := |row| - 1;
      AtMostOnce(row[..last], e);
      if row[last] == e {
        forall i | 0 <= i < last ensures row[..last][i] != e {
        }
        NoneEqual(row[..last], e);
      }
    }
  }

  lemma {:induction false} NoneEqual(row: seq<int>, e: int)
    requires forall i :: 0 <= i < |row| ==> row[i] != e
    ensures CountEq(row, e) == 0
  {
    if row != [] {
      NoneEqual(row[..|row| - 1], e);
    }
  }

  /** Count the valid assignments of each expert. */
  method Histogram(ids: seq<int>, hist: array<nat>)
    modifies hist
    ensures forall e :: 0 <= e < hist.Length ==> hist[e] == CountEq(ids, e)
  {
    for e := 0 to hist.Length
      invariant forall x :: 0 <= x < e ==> hist[x] == 0
    {
      hist[e] := 0;
    }
    assert ids[..0] == [];
    for i := 0 to |ids|
      invariant forall e :: 0 <= e < hist.Length ==> hist[e] == CountEq(ids[..i], e)
    {
      assert ids[..i + 1][..i] == ids[..i];
      if 0 <= ids[i] < hist.Length {
        hist[ids[i]] := hist[ids[i]] + 1;
      }
    }
    assert ids[..|ids|] == ids;
  }

  lemma {:induction false} LessIsStart(ids: seq<int>, hist: seq<nat>, e: nat)
    requires e <= |hist| && forall x :: 0 <= x < |hist| ==> hist[x] == CountEq(ids, x)
    ensures Start(hist, e) == CountLess(ids, e)
  {
    if e == 0 {
      LessZero(ids);
    } else {
      LessIsStart(ids, hist, e - 1);
      LessStep(ids, e - 1);
      StartStep(hist, e - 1);
    }
  }

  lemma {:induction false} LessZero(ids: seq<int>)
    ensures CountLess(ids, 0) == 0
  {
    if ids != [] {
      LessZero(ids[..|ids| - 1]);
    }
  }

  /** Running sums, each run's start and behind them the total. */
  method StoreStarts(counts: seq<nat>, offs: array<nat>, base: nat)
    requires base + |counts| < offs.Length
    modifies offs
    ensures forall e :: 0 <= e <= |counts| ==> offs[base + e] == Start(counts, e)
    ensures forall x :: 0 <= x < offs.Length && !(base <= x <= base + |counts|) ==> offs[x] == old(offs[x])
  {
    var cumulative := 0;
    assert Start(counts, 0) == 0;
    for e := 0 to |counts|
      invariant cumulative == Start(counts, e)
      invariant forall x :: 0 <= x < e ==> offs[base + x] == Start(counts, x)
      invariant forall x :: 0 <= x < offs.Length && !(base <= x < base + e) ==> offs[x] == old(offs[x])
    {
      offs[base + e] := cumulative;
      StartStep(counts, e);
      cumulative := cumulative + counts[e];
    }
    offs[base + |counts|] := cumulative;
  }

  /** A schedule in the making: blocks before `block` are stored, and those of `block` for experts
      before `expert`. */
  ghost predicate Partly(hist: seq<nat>, size: nat, slots: seq<int>, block: nat, expert: nat)
    requires size > 0
  {
    forall t :: 0 <= t < |slots| ==> slots[t] == Stored(hist, size, t, block, expert)
  }

  function Stored(hist: seq<nat>, size: nat, t: nat, block: nat, expert: nat): int
    requires size > 0
  {
    var counts := AllBlocks(hist, size);
    if t < Sum(counts) then
      var (e, b) := Owner(counts, t);
      if b < block || (b == block && e < expert) then b * 65536 + e else -1
    else -1
  }

  lemma PartlyNone(hist: seq<nat>, size: nat, slots: seq<int>)
    requires size > 0 && forall t :: 0 <= t < |slots| ==> slots[t] == -1
    ensures Partly(hist, size, slots, 0, 0)
  {
    forall t | 0 <= t < |slots| ensures Stored(hist, size, t, 0, 0) == -1 {
      if t < Sum(AllBlocks(hist, size)) {
        OwnerHolds(AllBlocks(hist, size), t);
      }
    }
  }

  lemma PartlyNext(hist: seq<nat>, size: nat, slots: seq<int>, block: nat, expert: nat)
    requires size > 0 && expert < |hist| && Partly(hist, size, slots, block, expert)
    requires Sum(AllBlocks(hist, size)) <= |slots|
    ensures block >= Blocks(hist[expert], size) ==> Partly(hist, size, slots, block, expert + 1)
    ensures block < Blocks(hist[expert], size) ==>
              var t := Start(AllBlocks(hist, size), expert) + block;
              t < |slots| && Partly(hist, size, slots[t := block * 65536 + expert], block, expert + 1)
  {
    hide Sum, Start, Blocks, Owner;
    var counts := AllBlocks(hist, size);
    if block < Blocks(hist[expert], size) {
      OwnerUnique(counts, expert, block);
    }
    forall t | 0 <= t < |slots| && t < Sum(counts) && Owner(counts, t) == (expert, block)
      ensures block < Blocks(hist[expert], size) && t == Start(counts, expert) + block
    {
      OwnerHolds(counts, t);
    }
  }

  lemma PartlyRow(hist: seq<nat>, size: nat, slots: seq<int>, block: nat)
    requires size > 0 && Partly(hist, size, slots, block, |hist|)
    ensures Partly(hist, size, slots, block + 1, 0)
  {
    hide Sum, Owner;
    forall t | 0 <= t < |slots| ensures Stored(hist, size, t, block, |hist|) == Stored(hist, size, t, block + 1, 0) {
      if t < Sum(AllBlocks(hist, size)) {
        OwnerHolds(AllBlocks(hist, size), t);
      }
    }
  }

  lemma PartlyAll(hist: seq<nat>, size: nat, slots: seq<int>, maxBlocks: nat)
    requires size > 0 && Partly(hist, size, slots, maxBlocks, 0)
    requires forall e :: 0 <= e < |hist| ==> Blocks(hist[e], size) <= maxBlocks
    ensures Scheduled(hist, size, slots)
  {
    hide Sum, Owner, Blocks;
    forall t | 0 <= t < |slots| ensures slots[t] == Slot(hist, size, t) {
      if t < Sum(AllBlocks(hist, size)) {
        OwnerHolds(AllBlocks(hist, size), t);
      }
    }
  }

  /** One block size's schedule: empty it, then store every expert's blocks, block by block. */
  method FillSchedule(hist: seq<nat>, size: nat, maxBlocks: nat, slots: array<int>)
    requires size > 0 && Sum(AllBlocks(hist, size)) <= slots.Length
    requires forall e :: 0 <= e < |hist| ==> Blocks(hist[e], size) <= maxBlocks
    modifies slots
    ensures Scheduled(hist, size, slots[..])
  {
    hide Partly, Scheduled, Sum, Blocks, Start;
    for t := 0 to slots.Length
      invariant forall u :: 0 <= u < t ==> slots[u] == -1
    {
      slots[t] := -1;
    }
    PartlyNone(hist, size, slots[..]);
    for block := 0 to maxBlocks
      invariant Partly(hist, size, slots[..], block, 0)
    {
      for expert := 0 to |hist|
        invariant Partly(hist, size, slots[..], block, expert)
      {
        PartlyNext(hist, size, slots[..], block, expert);
        if block < Blocks(hist[expert], size) {
          slots[Start(AllBlocks(hist, size), expert) + block] := block * 65536 + expert;
        }
      }
      PartlyRow(hist, size, slots[..], block);
    }
    PartlyAll(hist, size, slots[..], maxBlocks);
  }

  /** The block sizes that get a schedule: 16, 32, 64, 128 and 256. */
  function Size(sizeId: nat): (size: nat)
    ensures size >= 16
  {
    if sizeId == 0 then 16 else 2 * Size(sizeId - 1)
  }

  lemma BlocksShrink(rows: nat, maxRows: nat, size: nat)
    requires rows <= maxRows && size >= 16
    ensures Blocks(rows, size) <= Blocks(maxRows, 16)
  {
    var n, m := Blocks(rows, size), Blocks(maxRows, 16);
    MulLe(16, size, m);
    assert m * 16 >= maxRows;
    if m < n {
      BlocksCover(rows, size, m);
    }
  }

  /** The schedules of all five block sizes, and where each expert's blocks start in them. */
  method ScheduleTiles(hist: seq<nat>, rows: nat, blockOffs: seq<array<nat>>, schedules: seq<array<int>>)
    requires |schedules| == |blockOffs| == 5
    requires forall i, j :: 0 <= i < j < 5 ==> schedules[i] != schedules[j] && blockOffs[i] != blockOffs[j]
    requires forall k :: 0 <= k < 5 ==> blockOffs[k].Length == |hist| + 1
    requires forall k :: 0 <= k < 5 ==> Sum(AllBlocks(hist, Size(k))) <= schedules[k].Length
    requires forall e :: 0 <= e < |hist| ==> hist[e] <= rows
    modifies set k | 0 <= k < 5 :: schedules[k]
    modifies set k | 0 <= k < 5 :: blockOffs[k]
    ensures forall k :: 0 <= k < 5 ==> Scheduled(hist, Size(k), schedules[k][..])
    ensures forall k, e :: 0 <= k < 5 && 0 <= e <= |hist| ==> blockOffs[k][e] == Start(AllBlocks(hist, Size(k)), e)
  {
    hide Scheduled, Sum, Start, Blocks, Size;
    for k := 0 to 5
      invariant forall j :: 0 <= j < k ==> Scheduled(hist, Size(j), schedules[j][..])
      invariant forall j, e :: 0 <= j < k && 0 <= e <= |hist| ==> blockOffs[j][e] == Start(AllBlocks(hist, Size(j)), e)
    {
      forall e | 0 <= e < |hist| ensures Blocks(hist[e], Size(k)) <= Blocks(rows, 16) {
        BlocksShrink(hist[e], rows, Size(k));
      }
      StoreStarts(AllBlocks(hist, Size(k)), blockOffs[k], 0);
      FillSchedule(hist, Size(k), Blocks(rows, 16), schedules[k]);
    }
  }
}
