/** The two routing kernels: the blockwise sort, whose blocks may be padded and run in any order, and
    the single sort over all assignments. Both fill their buffers with the one stable order.
 */
module RoutingKernels {
  import opened Division
  import opened Routing

  const INVALID_COLUMN := 0xFFFF

  /** The column of a lane: its expert, or the invalid one if it is padding or has none. */
  function Column(ids: seq<int>, base: nat, size: nat, lane: nat): int {
    if lane < size && base + lane < |ids| && ids[base + lane] >= 0 then ids[base + lane] else INVALID_COLUMN
  }

  /** The packed key of a lane: its column above its offset in the block. */
  function BlockKey(ids: seq<int>, base: nat, size: nat, lane: nat): int {
    Column(ids, base, size, lane) * 65536 + lane
  }

  function BlockKeys(ids: seq<int>, base: nat, size: nat, padded: nat): (keys: seq<int>)
    ensures |keys| == padded
  {
    seq(padded, lane requires 0 <= lane => BlockKey(ids, base, size, lane))
  }

  /** Ids are valid columns or -1, and lanes fit the packed key. */
  predicate Packable(ids: seq<int>, padded: nat) {
    padded <= 32768 && forall i :: 0 <= i < |ids| ==> -1 <= ids[i] < INVALID_COLUMN
  }

  lemma PackedRange(column: int, lane: nat, other: int, bound: nat)
    requires lane < 65536 && bound < 65536
    ensures other * 65536 <= column * 65536 + lane < other * 65536 + bound <==> column == other && lane < bound
    ensures (column * 65536 + lane) / 65536 == column && (column * 65536 + lane) % 65536 == lane
  {
  }

  lemma CountEqOne(ids: seq<int>, base: nat, n: nat, e: int)
    requires 0 < n && base + n <= |ids|
    ensures CountEq(ids[base..base + n], e) ==
              CountEq(ids[base..base + n - 1], e) + if ids[base + n - 1] == e then 1 else 0
  {
    assert ids[base..base + n] == ids[base..base + n - 1] + [ids[base + n - 1]];
    EqSnoc(ids[base..base + n - 1], ids[base + n - 1], e);
  }

  /** In a block, the keys below an assignment's own in its column are those of its column before it. */
  lemma {:induction false} BlockCount(ids: seq<int>, base: nat, size: nat, padded: nat, lane: nat, n: nat)
    requires Packable(ids, padded) && n <= padded && lane < padded
    requires lane < size && base + lane < |ids| && ids[base + lane] >= 0
    ensures var column, cut := ids[base + lane], if n < lane then n else lane;
            InRange(BlockKeys(ids, base, size, padded)[..n], column * 65536, column * 65536 + lane)
            == CountEq(ids[base..base + cut], column)
  {
    hide CountEq;
    var keys, column := BlockKeys(ids, base, size, padded), ids[base + lane];
    if n == 0 {
      assert keys[..0] == [] && ids[base..base] == [];
      CountEqNone(column);
    } else {
      BlockCount(ids, base, size, padded, lane, n - 1);
      assert keys[..n][..n - 1] == keys[..n - 1];
      PackedRange(Column(ids, base, size, n - 1), n - 1, column, lane);
      if n <= lane {
        CountEqOne(ids, base, n, column);
      }
    }
  }

  lemma CountEqNone(e: int)
    ensures CountEq([], e) == 0
  {
  }

  lemma KeysDiffer(a: int, i: nat, b: int, j: nat)
    requires i < 65536 && j < 65536 && i != j
    ensures a * 65536 + i != b * 65536 + j
  {
  }

  lemma {:induction false} BlockUnique(ids: seq<int>, base: nat, size: nat, padded: nat, lane: nat, n: nat)
    requires Packable(ids, padded) && n <= padded && lane < padded
    ensures var key := BlockKey(ids, base, size, lane);
            InRange(BlockKeys(ids, base, size, padded)[..n], key, key + 1) == if lane < n then 1 else 0
  {
    hide Column;
    var keys := BlockKeys(ids, base, size, padded);
    if n > 0 {
      BlockUnique(ids, base, size, padded, lane, n - 1);
      assert keys[..n][..n - 1] == keys[..n - 1];
      if lane != n - 1 {
        KeysDiffer(Column(ids, base, size, n - 1), n - 1, Column(ids, base, size, lane), lane);
      }
    }
  }

  /** The scan's operation on packed (column, run length) pairs. */
  function KeyedAdd(x: int, y: int): int {
    if x / 65536 == y / 65536 then x + y % 65536 else y
  }

  /** On sorted keys the operation is associative, so any bracketing of the scan gives the same. */
  lemma KeyedAddAssociates(x: int, y: int, z: int)
    requires 0 <= x / 65536 <= y / 65536 <= z / 65536
    requires x % 65536 + y % 65536 + z % 65536 < 65536
    ensures KeyedAdd(KeyedAdd(x, y), z) == KeyedAdd(x, KeyedAdd(y, z))
  {
    if x / 65536 == y / 65536 {
      assert (x + y % 65536) / 65536 == y / 65536 && (x + y % 65536) % 65536 == x % 65536 + y % 65536;
    }
    if y / 65536 == z / 65536 {
      assert (y + z % 65536) / 65536 == z / 65536 && (y + z % 65536) % 65536 == y % 65536 + z % 65536;
    }
  }

  /** The inclusive scan over the sorted keys' columns, each with run length one. */
  function Runs(sorted: seq<int>, k: nat): int
    requires k < |sorted|
  {
    var x := sorted[k] / 65536 * 65536 + 1;
    if k == 0 then x else KeyedAdd(Runs(sorted, k - 1), x)
  }

  lemma KeyedAddRuns(prev: nat, length: nat, column: nat)
    requires length < 65535
    ensures KeyedAdd(prev * 65536 + length, column * 65536 + 1) ==
              if prev == column then column * 65536 + (length + 1) else column * 65536 + 1
  {
  }

  lemma RunBefore(sorted: seq<int>, k: nat, column: nat)
    requires 0 < k < |sorted| && Ascending(sorted) && sorted[0] >= 0 && column == sorted[k] / 65536
    ensures InRange(sorted[..k], column * 65536, sorted[k] + 1) ==
              if sorted[k - 1] / 65536 == column
              then 1 + InRange(sorted[..k - 1], column * 65536, sorted[k - 1] + 1) else 0
  {
    assert sorted[..k][..k - 1] == sorted[..k - 1];
    if sorted[k - 1] / 65536 == column {
      SameRange(sorted[..k - 1], column * 65536, sorted[k - 1] + 1, sorted[k] + 1);
    } else {
      assert sorted[k - 1] < column * 65536;
      InRangeNone(sorted[..k], column * 65536, sorted[k] + 1);
    }
  }

  /** A key's run length counts the keys of its column up to it. */
  lemma {:induction false} RunsCount(sorted: seq<int>, k: nat)
    requires k < |sorted| && Ascending(sorted) && sorted[0] >= 0 && |sorted| <= 32768
    ensures var column := sorted[k] / 65536;
            Runs(sorted, k) == column * 65536 + (1 + InRange(sorted[..k], column * 65536, sorted[k] + 1))
    ensures InRange(sorted[..k], sorted[k] / 65536 * 65536, sorted[k] + 1) <= k
  {
    hide InRange, KeyedAdd;
    var column := sorted[k] / 65536;
    if k == 0 {
      InRangeNone(sorted[..0], column * 65536, sorted[0] + 1);
    } else {
      RunsCount(sorted, k - 1);
      RunBefore(sorted, k, column);
      var prev := sorted[k - 1] / 65536;
      KeyedAddRuns(prev, 1 + InRange(sorted[..k - 1], prev * 65536, sorted[k - 1] + 1), column);
    }
  }

  lemma SameRange(s: seq<int>, lo: int, hi: int, larger: int)
    requires hi <= larger && forall i :: 0 <= i < |s| ==> s[i] < hi
    ensures InRange(s, lo, hi) == InRange(s, lo, larger)
  {
  }

  /** What stage one supplies for a block: how often each expert occurs before it, and where each
      expert's assignments start. */
  ghost predicate StageOne(ids: seq<int>, experts: nat, base: nat, partials: seq<nat>, starts: seq<nat>) {
    && |partials| == |starts| == experts
    && forall e :: 0 <= e < experts ==>
         && partials[e] == CountEq(ids[..if base < |ids| then base else |ids|], e)
         && starts[e] == CountLess(ids, e)
  }

  lemma SortedLane(ids: seq<int>, base: nat, size: nat, padded: nat, sorted: seq<int>, k: nat) returns (lane: nat)
    requires sorted == Sorted(BlockKeys(ids, base, size, padded)) && k < |sorted| && padded <= 32768
    ensures lane < padded && sorted[k] == BlockKey(ids, base, size, lane)
    ensures sorted[k] / 65536 == Column(ids, base, size, lane) && sorted[k] % 65536 == lane
  {
    hide Sorted, Column;
    var keys := BlockKeys(ids, base, size, padded);
    SortedAscending(keys);
    assert sorted[k] in sorted;
    assert sorted[k] in keys;
    lane :| 0 <= lane < padded && keys[lane] == sorted[k];
    PackedRange(Column(ids, base, size, lane), lane, 0, 0);
  }

  /** The row a block computes for an assignment is the assignment's place. */
  lemma BlockRow(ids: seq<int>, experts: nat, base: nat, size: nat, padded: nat, partials: seq<nat>, starts: seq<nat>,
                 sorted: seq<int>, k: nat)
    requires Packable(ids, padded) && experts <= INVALID_COLUMN && StageOne(ids, experts, base, partials, starts)
    requires forall i :: 0 <= i < |ids| ==> ids[i] < experts
    requires sorted == Sorted(BlockKeys(ids, base, size, padded)) && k < |sorted|
    requires sorted[k] / 65536 != INVALID_COLUMN
    ensures var e, i := sorted[k] / 65536, base + sorted[k] % 65536;
            && Active(ids, experts, i) && ids[i] == e && sorted[k] % 65536 < size
            && partials[e] + starts[e] + (Runs(sorted, k) - 1) % 65536 == Place(ids, i)
  {
    hide Sorted, InRange, Runs, CountEq, CountLess;
    var lane := SortedLane(ids, base, size, padded, sorted, k);
    var keys, e := BlockKeys(ids, base, size, padded), sorted[k] / 65536;
    BlockUnique(ids, base, size, padded, lane, padded);
    BlockCount(ids, base, size, padded, lane, padded);
    assert keys[..padded] == keys;
    BlockRun(keys, sorted, e, k);
    assert ids[..base + lane] == ids[..base] + ids[base..base + lane];
    EqConcat(ids[..base], ids[base..base + lane], e);
  }

  lemma BlockRun(keys: seq<int>, sorted: seq<int>, e: nat, k: nat)
    requires sorted == Sorted(keys) && |keys| <= 32768 && forall i :: 0 <= i < |keys| ==> keys[i] >= 0
    requires k < |sorted| && e == sorted[k] / 65536 && InRange(keys, sorted[k], sorted[k] + 1) == 1
    ensures (Runs(sorted, k) - 1) % 65536 == InRange(keys, e * 65536, sorted[k])
  {
    hide InRange, Sorted, Runs;
    SortedAscending(keys);
    assert sorted[0] in keys;
    RunsCount(sorted, k);
    RankIsCount(keys, sorted, e * 65536, k);
    SameRange(sorted[..k], e * 65536, sorted[k], sorted[k] + 1);
    assert (e * 65536 + InRange(keys, e * 65536, sorted[k])) % 65536 == InRange(keys, e * 65536, sorted[k]);
  }

  /** Both buffers hold the places of the assignments written, and what they held elsewhere. */
  ghost predicate Stored(ids: seq<int>, experts: nat, written: set<nat>, row: seq<int>, col: seq<int>,
                         row0: seq<int>, col0: seq<int>) {
    && |row| == |col| == |row0| == |col0| == |ids|
    && (forall i :: i in written ==> Active(ids, experts, i) && Place(ids, i) < |ids|)
    && (forall i :: 0 <= i < |ids| ==> row[i] == if i in written then Place(ids, i) else row0[i])
    && (forall i :: i in written ==> col[Place(ids, i)] == i)
    && (forall p :: 0 <= p < |ids| && (forall i :: i in written ==> Place(ids, i) != p) ==> col[p] == col0[p])
  }

  lemma StoredNone(ids: seq<int>, experts: nat, row: seq<int>, col: seq<int>)
    requires |row| == |col| == |ids|
    ensures Stored(ids, experts, {}, row, col, row, col)
  {
  }

  /** Storing one more assignment's place, or the same once more. */
  lemma StoredMore(ids: seq<int>, experts: nat, written: set<nat>, row: seq<int>, col: seq<int>,
                   row0: seq<int>, col0: seq<int>, i: nat)
    requires Stored(ids, experts, written, row, col, row0, col0) && Active(ids, experts, i)
    ensures Place(ids, i) < |ids|
    ensures Stored(ids, experts, written + {i}, row[i := Place(ids, i)], col[Place(ids, i) := i], row0, col0)
  {
    hide Place;
    PlaceBounded(ids, experts, i);
    forall j | j in written && j != i ensures Place(ids, j) != Place(ids, i) {
      PlaceInjective(ids, experts, i, j);
    }
  }

  /** The assignments of one block. */
  function BlockOf(ids: seq<int>, experts: nat, base: nat, size: nat): set<nat> {
    set i: nat | i < |ids| && base <= i < base + size && Active(ids, experts, i)
  }

  predicate Visited(ids: seq<int>, experts: nat, base: nat, size: nat, sorted: seq<int>, k: nat, written: set<nat>)
    requires k <= |sorted|
  {
    && written <= BlockOf(ids, experts, base, size)
    && forall j :: 0 <= j < k && sorted[j] / 65536 != INVALID_COLUMN ==> base + sorted[j] % 65536 in written
  }

  /** Every assignment of the block is visited. */
  lemma AllVisited(ids: seq<int>, experts: nat, base: nat, size: nat, padded: nat, sorted: seq<int>, written: set<nat>)
    requires Packable(ids, padded) && size <= padded && experts <= INVALID_COLUMN
    requires sorted == Sorted(BlockKeys(ids, base, size, padded)) && |sorted| == padded
    requires Visited(ids, experts, base, size, sorted, padded, written)
    ensures written == BlockOf(ids, experts, base, size)
  {
    hide Sorted;
    var keys := BlockKeys(ids, base, size, padded);
    SortedAscending(keys);
    forall i | i in BlockOf(ids, experts, base, size) ensures i in written {
      var lane := i - base;
      assert keys[lane] in keys;
      assert keys[lane] in sorted;
      var k :| 0 <= k < |sorted| && sorted[k] == keys[lane];
      PackedRange(Column(ids, base, size, lane), lane, 0, 0);
      assert base + sorted[k] % 65536 in written;
    }
  }

  /** One program of the blockwise kernel: sort the block's packed keys, scan their run lengths, and
      store each assignment's place. */
  method SortBlock(ids: seq<int>, experts: nat, topK: nat, padded: nat, pid: nat, partials: seq<nat>, starts: seq<nat>,
                   rowSorted: array<int>, colSorted: array<int>)
    requires rowSorted != colSorted && rowSorted.Length == colSorted.Length == |ids|
    requires Packable(ids, padded) && 32 * topK <= padded && experts <= INVALID_COLUMN
    requires forall i :: 0 <= i < |ids| ==> ids[i] < experts
    requires StageOne(ids, experts, pid * (32 * topK), partials, starts)
    modifies rowSorted, colSorted
    ensures Stored(ids, experts, BlockOf(ids, experts, pid * (32 * topK), 32 * topK), rowSorted[..], colSorted[..],
                   old(rowSorted[..]), old(colSorted[..]))
  {
    hide Stored, Runs, Sorted, Place, StageOne, Visited, BlockOf, Packable;
    var size := 32 * topK;
    var base := pid * size;
    var keys := BlockKeys(ids, base, size, padded);
    var sorted := Sorted(keys);
    SortedAscending(keys);
    ghost var written: set<nat> := {};
    StoredNone(ids, experts, rowSorted[..], colSorted[..]);
    VisitedNone(ids, experts, base, size, sorted);
    var run := 0;
    for k := 0 to padded
      invariant k > 0 ==> run == Runs(sorted, k - 1)
      invariant Visited(ids, experts, base, size, sorted, k, written)
      invariant Stored(ids, experts, written, rowSorted[..], colSorted[..], old(rowSorted[..]), old(colSorted[..]))
    {
      RunsNext(sorted, k);
      var x := sorted[k] / 65536 * 65536 + 1;
      run := if k == 0 then x else KeyedAdd(run, x);
      var column := sorted[k] / 65536;
      if column != INVALID_COLUMN {
        BlockRow(ids, experts, base, size, padded, partials, starts, sorted, k);
        VisitedMore(ids, experts, base, size, sorted, k, written);
        PartialsLength(ids, experts, base, partials, starts);
        var offset := base + sorted[k] % 65536;
        var row := partials[column] + starts[column] + (run - 1) % 65536;
        StorePlace(ids, experts, offset, row, rowSorted, colSorted, written, old(rowSorted[..]), old(colSorted[..]));
        written := written + {offset};
      } else {
        VisitedPadding(ids, experts, base, size, sorted, k, written);
      }
    }
    AllVisited(ids, experts, base, size, padded, sorted, written);
  }

  /** The two stores of an assignment. */
  method StorePlace(ids: seq<int>, experts: nat, offset: nat, row: nat, rowSorted: array<int>, colSorted: array<int>,
                    ghost written: set<nat>, ghost row0: seq<int>, ghost col0: seq<int>)
    requires rowSorted != colSorted && rowSorted.Length == colSorted.Length == |ids|
    requires Active(ids, experts, offset) && row == Place(ids, offset)
    requires Stored(ids, experts, written, rowSorted[..], colSorted[..], row0, col0)
    modifies rowSorted, colSorted
    ensures Stored(ids, experts, written + {offset}, rowSorted[..], colSorted[..], row0, col0)
  {
    hide Stored, Place;
    StoredMore(ids, experts, written, rowSorted[..], colSorted[..], row0, col0, offset);
    rowSorted[offset] := row;
    colSorted[row] := offset;
  }

  lemma PartialsLength(ids: seq<int>, experts: nat, base: nat, partials: seq<nat>, starts: seq<nat>)
    requires StageOne(ids, experts, base, partials, starts)
    ensures |partials| == |starts| == experts
  {
  }

  lemma RunsNext(sorted: seq<int>, k: nat)
    requires k < |sorted|
    ensures var x := sorted[k] / 65536 * 65536 + 1;
            Runs(sorted, k) == if k == 0 then x else KeyedAdd(Runs(sorted, k - 1), x)
  {
  }

  lemma VisitedNone(ids: seq<int>, experts: nat, base: nat, size: nat, sorted: seq<int>)
    ensures Visited(ids, experts, base, size, sorted, 0, {})
  {
  }

  lemma VisitedMore(ids: seq<int>, experts: nat, base: nat, size: nat, sorted: seq<int>, k: nat, written: set<nat>)
    requires k < |sorted| && Visited(ids, experts, base, size, sorted, k, written)
    requires Active(ids, experts, base + sorted[k] % 65536) && sorted[k] % 65536 < size
    ensures Visited(ids, experts, base, size, sorted, k + 1, written + {base + sorted[k] % 65536})
  {
  }

  lemma VisitedPadding(ids: seq<int>, experts: nat, base: nat, size: nat, sorted: seq<int>, k: nat, written: set<nat>)
    requires k < |sorted| && Visited(ids, experts, base, size, sorted, k, written)
    requires sorted[k] / 65536 == INVALID_COLUMN
    ensures Visited(ids, experts, base, size, sorted, k + 1, written)
  {
  }

  /** The routing buffers: `row` sends each valid assignment to its place, `col` each place to its
      assignment, and both hold -1 elsewhere. */
  ghost predicate Routed(ids: seq<int>, experts: nat, row: seq<int>, col: seq<int>) {
    && |row| == |col| == |ids|
    && (forall i :: 0 <= i < |ids| ==> row[i] == if Active(ids, experts, i) then Place(ids, i) else -1)
    && (forall p :: 0 <= p < |ids| ==>
          if p < CountLess(ids, experts) then Active(ids, experts, col[p]) && Place(ids, col[p]) == p else col[p] == -1)
  }

  /** The buffers are mutual inverses on valid assignments. */
  lemma RoutedInverse(ids: seq<int>, experts: nat, row: seq<int>, col: seq<int>, x: nat)
    requires Routed(ids, experts, row, col) && x < |ids|
    ensures row[x] >= 0 ==> row[x] < |ids| && col[row[x]] == x
    ensures col[x] >= 0 ==> col[x] < |ids| && row[col[x]] == x
  {
    hide Place;
    if row[x] >= 0 {
      PlaceBounded(ids, experts, x);
      if col[row[x]] != x {
        PlaceInjective(ids, experts, col[row[x]], x);
      }
    }
  }

  /** Whichever kernel filled them, in whatever order, the buffers are the same. */
  lemma RoutedUnique(ids: seq<int>, experts: nat, row: seq<int>, col: seq<int>, row': seq<int>, col': seq<int>)
    requires Routed(ids, experts, row, col) && Routed(ids, experts, row', col')
    ensures row == row' && col == col'
  {
    hide Place;
    forall p | 0 <= p < |ids| ensures col[p] == col'[p] {
      if p < CountLess(ids, experts) && col[p] != col'[p] {
        PlaceInjective(ids, experts, col[p], col'[p]);
      }
    }
  }

  /** The key of a position in the single sort; inactive positions sort last. */
  function GlobalKey(ids: seq<int>, experts: nat, width: nat, sentinel: int, i: nat): int {
    if Active(ids, experts, i) then ids[i] * width + i else sentinel
  }

  function GlobalKeys(ids: seq<int>, experts: nat, width: nat, sentinel: int): (keys: seq<int>)
    ensures |keys| == width
  {
    seq(width, i requires 0 <= i => GlobalKey(ids, experts, width, sentinel, i))
  }

  predicate Fits(ids: seq<int>, experts: nat, width: nat, sentinel: int) {
    |ids| <= width && experts * width <= sentinel
  }

  lemma KeyOrder(width: nat, a: nat, i: nat, b: nat, j: nat)
    requires i < width && j < width
    ensures a * width + i < b * width + j <==> a < b || (a == b && i < j)
    ensures (a * width + i) % width == i
  {
    if a < b {
      assert (a + 1) * width <= b * width;
    } else if b < a {
      assert (b + 1) * width <= a * width;
    }
    ModOfKey(width, a, i);
  }

  lemma ModOfKey(width: nat, a: nat, i: nat)
    requires i < width
    ensures (a * width + i) % width == i
  {
    DivUnique(a * width + i, width, a, i);
  }

  lemma KeyBound(experts: nat, width: nat, a: nat, i: nat, sentinel: int)
    requires i < width && a < experts && experts * width <= sentinel
    ensures 0 <= a * width + i < sentinel
  {
    assert (a + 1) * width <= experts * width;
  }

  lemma PrefixCounts(ids: seq<int>, n: nat, e: int)
    requires 0 < n <= |ids|
    ensures CountLess(ids[..n], e) == CountLess(ids[..n - 1], e) + if 0 <= ids[n - 1] < e then 1 else 0
    ensures CountEq(ids[..n], e) == CountEq(ids[..n - 1], e) + if ids[n - 1] == e then 1 else 0
  {
    assert ids[..n][..n - 1] == ids[..n - 1];
  }

  /** Whether one position's key is below an assignment's own. */
  lemma KeyBelow(ids: seq<int>, experts: nat, width: nat, sentinel: int, i: nat, j: nat)
    requires Fits(ids, experts, width, sentinel) && Active(ids, experts, i) && j < width
    ensures 0 <= GlobalKey(ids, experts, width, sentinel, j) < ids[i] * width + i <==>
              Active(ids, experts, j) && (ids[j] < ids[i] || (ids[j] == ids[i] && j < i))
  {
    KeyBound(experts, width, ids[i], i, sentinel);
    if Active(ids, experts, j) {
      KeyOrder(width, ids[j], j, ids[i], i);
      KeyBound(experts, width, ids[j], j, sentinel);
    }
  }

  /** The keys below an assignment's own are as many as its place. */
  lemma {:induction false} GlobalCount(ids: seq<int>, experts: nat, width: nat, sentinel: int, i: nat, n: nat)
    requires Fits(ids, experts, width, sentinel) && Active(ids, experts, i) && n <= width
    ensures var cut, early := if n < |ids| then n else |ids|, if n < i then n else i;
            InRange(GlobalKeys(ids, experts, width, sentinel)[..n], 0, ids[i] * width + i)
            == CountLess(ids[..cut], ids[i]) + CountEq(ids[..early], ids[i])
  {
    hide CountLess, CountEq, GlobalKey;
    var keys := GlobalKeys(ids, experts, width, sentinel);
    if n == 0 {
      NoneCounted(ids, ids[i]);
    } else {
      GlobalCount(ids, experts, width, sentinel, i, n - 1);
      assert keys[..n][..n - 1] == keys[..n - 1];
      KeyBelow(ids, experts, width, sentinel, i, n - 1);
      if n <= |ids| {
        PrefixCounts(ids, n, ids[i]);
      }
    }
  }

  lemma NoneCounted(ids: seq<int>, e: int)
    ensures CountLess(ids[..0], e) == 0 && CountEq(ids[..0], e) == 0
  {
  }

  lemma {:induction false} GlobalUnique(ids: seq<int>, experts: nat, width: nat, sentinel: int, i: nat, n: nat)
    requires Fits(ids, experts, width, sentinel) && Active(ids, experts, i) && n <= width
    ensures var key := ids[i] * width + i;
            InRange(GlobalKeys(ids, experts, width, sentinel)[..n], key, key + 1) == if i < n then 1 else 0
  {
    var keys := GlobalKeys(ids, experts, width, sentinel);
    if n > 0 {
      GlobalUnique(ids, experts, width, sentinel, i, n - 1);
      assert keys[..n][..n - 1] == keys[..n - 1];
      KeyBound(experts, width, ids[i], i, sentinel);
      if Active(ids, experts, n - 1) {
        KeyOrder(width, ids[n - 1], n - 1, ids[i], i);
        KeyOrder(width, ids[i], i, ids[n - 1], n - 1);
      }
    }
  }

  /** As many keys are below the sentinel as there are valid assignments. */
  lemma {:induction false} GlobalActive(ids: seq<int>, experts: nat, width: nat, sentinel: int, n: nat)
    requires Fits(ids, experts, width, sentinel) && n <= width
    ensures var cut := if n < |ids| then n else |ids|;
            InRange(GlobalKeys(ids, experts, width, sentinel)[..n], 0, sentinel) == CountLess(ids[..cut], experts)
  {
    var keys := GlobalKeys(ids, experts, width, sentinel);
    if n > 0 {
      GlobalActive(ids, experts, width, sentinel, n - 1);
      assert keys[..n][..n - 1] == keys[..n - 1];
      if n <= |ids| {
        assert ids[..n][..n - 1] == ids[..n - 1];
        if Active(ids, experts, n - 1) {
          KeyBound(experts, width, ids[n - 1], n - 1, sentinel);
        }
      }
    }
  }

  /** The single sort puts at each position the assignment whose place it is, and sentinels behind. */
  lemma SortedPlaces(ids: seq<int>, experts: nat, width: nat, sentinel: int, sorted: seq<int>, p: nat)
    requires Fits(ids, experts, width, sentinel) && sorted == Sorted(GlobalKeys(ids, experts, width, sentinel))
    requires p < |sorted|
    ensures sorted[p] != sentinel <==> p < CountLess(ids, experts)
    ensures sorted[p] != sentinel ==>
              width > 0 && Active(ids, experts, sorted[p] % width) && Place(ids, sorted[p] % width) == p
  {
    hide Sorted, CountLess, CountEq, InRange;
    var keys := GlobalKeys(ids, experts, width, sentinel);
    SortedAscending(keys);
    GlobalActive(ids, experts, width, sentinel, width);
    assert keys[..width] == keys && ids[..|ids|] == ids;
    SortedCounts(keys, 0, sentinel);
    SortedKey(ids, experts, width, sentinel, sorted, p);
    if sorted[p] != sentinel {
      var i := sorted[p] % width;
      GlobalUnique(ids, experts, width, sentinel, i, width);
      GlobalCount(ids, experts, width, sentinel, i, width);
      RankIsCount(keys, sorted, 0, p);
      LowAll(ids, experts, width, sentinel, sorted, p);
      PlaceBounded(ids, experts, i);
    } else {
      SentinelBehind(sorted, sentinel, p);
    }
  }

  lemma SortedKey(ids: seq<int>, experts: nat, width: nat, sentinel: int, sorted: seq<int>, p: nat)
    requires Fits(ids, experts, width, sentinel) && sorted == Sorted(GlobalKeys(ids, experts, width, sentinel))
    requires p < |sorted|
    ensures 0 <= sorted[p] <= sentinel
    ensures sorted[p] != sentinel ==>
              width > 0 && var i := sorted[p] % width;
              Active(ids, experts, i) && sorted[p] == ids[i] * width + i
  {
    hide Sorted;
    var keys := GlobalKeys(ids, experts, width, sentinel);
    SortedAscending(keys);
    assert sorted[p] in sorted;
    assert sorted[p] in keys;
    var i :| 0 <= i < width && keys[i] == sorted[p];
    if Active(ids, experts, i) {
      KeyBound(experts, width, ids[i], i, sentinel);
      ModOfKey(width, ids[i], i);
    }
  }

  lemma LowAll(ids: seq<int>, experts: nat, width: nat, sentinel: int, sorted: seq<int>, p: nat)
    requires Fits(ids, experts, width, sentinel) && sorted == Sorted(GlobalKeys(ids, experts, width, sentinel))
    requires p < |sorted| && forall j :: 0 <= j < p ==> sorted[j] < sorted[p]
    ensures InRange(sorted[..p], 0, sorted[p]) == p
  {
    hide Sorted;
    forall j | 0 <= j < p ensures 0 <= sorted[..p][j] < sorted[p] {
      SortedKey(ids, experts, width, sentinel, sorted, j);
    }
    InRangeAll(sorted[..p], 0, sorted[p]);
  }

  lemma SentinelBehind(sorted: seq<int>, sentinel: int, p: nat)
    requires Ascending(sorted) && p < |sorted| && sorted[p] == sentinel
    ensures InRange(sorted, 0, sentinel) <= p
  {
    assert sorted == sorted[..p] + sorted[p..];
    InRangeConcat(sorted[..p], sorted[p..], 0, sentinel);
    InRangeNone(sorted[p..], 0, sentinel);
    InRangeAtMost(sorted[..p], 0, sentinel);
  }

  lemma {:induction false} InRangeAtMost(s: seq<int>, lo: int, hi: int)
    ensures InRange(s, lo, hi) <= |s|
  {
    if s != [] {
      InRangeAtMost(s[..|s| - 1], lo, hi);
    }
  }

  /** Every place up to the number of valid assignments is some assignment's. */
  lemma PlaceOnto(ids: seq<int>, experts: nat, p: nat) returns (i: nat)
    requires p < CountLess(ids, experts)
    ensures Active(ids, experts, i) && Place(ids, i) == p
  {
    LessAtMost(ids, experts);
    var width, sentinel := |ids|, experts * |ids|;
    var sorted := Sorted(GlobalKeys(ids, experts, width, sentinel));
    SortedAscending(GlobalKeys(ids, experts, width, sentinel));
    SortedPlaces(ids, experts, width, sentinel, sorted, p);
    i := sorted[p] % width;
  }

  function AllActive(ids: seq<int>, experts: nat): set<nat> {
    set i: nat | i < |ids| && Active(ids, experts, i)
  }

  /** Buffers that started out as -1 and received every assignment are routed. */
  lemma StoredAll(ids: seq<int>, experts: nat, row: seq<int>, col: seq<int>, row0: seq<int>, col0: seq<int>)
    requires Stored(ids, experts, AllActive(ids, experts), row, col, row0, col0)
    requires forall i :: 0 <= i < |ids| ==> row0[i] == -1 && col0[i] == -1
    ensures Routed(ids, experts, row, col)
  {
    hide Place;
    forall p | 0 <= p < |ids|
      ensures if p < CountLess(ids, experts) then Active(ids, experts, col[p]) && Place(ids, col[p]) == p
              else col[p] == -1
    {
      if p < CountLess(ids, experts) {
        var i := PlaceOnto(ids, experts, p);
      } else {
        forall i | i in AllActive(ids, experts) ensures Place(ids, i) != p {
          PlaceBounded(ids, experts, i);
        }
      }
    }
  }

  lemma StoredBoth(ids: seq<int>, experts: nat, a: set<nat>, b: set<nat>, row0: seq<int>, col0: seq<int>,
                   row1: seq<int>, col1: seq<int>, row: seq<int>, col: seq<int>)
    requires Stored(ids, experts, a, row1, col1, row0, col0) && Stored(ids, experts, b, row, col, row1, col1)
    ensures Stored(ids, experts, a + b, row, col, row0, col0)
  {
    hide Place;
    forall i | i in a && i !in b ensures col[Place(ids, i)] == i {
      forall j | j in b ensures Place(ids, j) != Place(ids, i) {
        PlaceInjective(ids, experts, i, j);
      }
    }
  }

  /** The assignments of the blocks run so far. */
  function BlocksOf(ids: seq<int>, experts: nat, size: nat, pids: seq<nat>): set<nat> {
    if pids == [] then {}
    else BlocksOf(ids, experts, size, pids[..|pids| - 1]) + BlockOf(ids, experts, pids[|pids| - 1] * size, size)
  }

  lemma {:induction false} BlocksHave(ids: seq<int>, experts: nat, size: nat, pids: seq<nat>, pid: nat, i: nat)
    requires pid in pids && i in BlockOf(ids, experts, pid * size, size)
    ensures i in BlocksOf(ids, experts, size, pids)
  {
    var last := |pids| - 1;
    if pids[last] != pid {
      assert pids == pids[..last] + [pids[last]];
      BlocksHave(ids, experts, size, pids[..last], pid, i);
    }
  }

  lemma {:induction false} BlocksActive(ids: seq<int>, experts: nat, size: nat, pids: seq<nat>)
    ensures BlocksOf(ids, experts, size, pids) <= AllActive(ids, experts)
  {
    if pids != [] {
      BlocksActive(ids, experts, size, pids[..|pids| - 1]);
    }
  }

  /** Blocks that cover all rows have all assignments. */
  lemma BlocksCover(ids: seq<int>, experts: nat, size: nat, pids: seq<nat>)
    requires size > 0 && forall pid: nat :: pid * size < |ids| ==> pid in pids
    ensures BlocksOf(ids, experts, size, pids) == AllActive(ids, experts)
  {
    BlocksActive(ids, experts, size, pids);
    forall i | i in AllActive(ids, experts) ensures i in BlocksOf(ids, experts, size, pids) {
      var pid := i / size;
      assert pid * size <= i < pid * size + size;
      BlocksHave(ids, experts, size, pids, pid, i);
    }
  }

  ghost predicate StageOneAll(ids: seq<int>, experts: nat, size: nat, partials: seq<seq<nat>>, starts: seq<nat>) {
    forall pid :: 0 <= pid < |partials| ==> StageOne(ids, experts, pid * size, partials[pid], starts)
  }

  /** The whole grid of the blockwise kernel: its programs, in any order, fill buffers of -1 with the
      stable order. */
  method SortBlockwise(ids: seq<int>, experts: nat, topK: nat, padded: nat, order: seq<nat>, partials: seq<seq<nat>>,
                       starts: seq<nat>, rowSorted: array<int>, colSorted: array<int>)
    requires rowSorted != colSorted && rowSorted.Length == colSorted.Length == |ids|
    requires forall i :: 0 <= i < |ids| ==> rowSorted[i] == -1 && colSorted[i] == -1
    requires Packable(ids, padded) && 0 < 32 * topK <= padded && experts <= INVALID_COLUMN
    requires forall i :: 0 <= i < |ids| ==> ids[i] < experts
    requires StageOneAll(ids, experts, 32 * topK, partials, starts)
    requires forall pid :: pid in order ==> pid < |partials|
    requires forall pid: nat :: pid * (32 * topK) < |ids| ==> pid in order
    modifies rowSorted, colSorted
    ensures Routed(ids, experts, rowSorted[..], colSorted[..])
  {
    hide Stored, BlockOf, Packable, Place, Routed, StageOne;
    var size := 32 * topK;
    ghost var row0, col0 := rowSorted[..], colSorted[..];
    StoredNone(ids, experts, row0, col0);
    assert order[..0] == [];
    for n := 0 to |order|
      invariant Stored(ids, experts, BlocksOf(ids, experts, size, order[..n]), rowSorted[..], colSorted[..], row0, col0)
    {
      ghost var row1, col1 := rowSorted[..], colSorted[..];
      assert order[n] in order;
      SortBlock(ids, experts, topK, padded, order[n], partials[order[n]], starts, rowSorted, colSorted);
      StoredBoth(ids, experts, BlocksOf(ids, experts, size, order[..n]), BlockOf(ids, experts, order[n] * size, size),
                 row0, col0, row1, col1, rowSorted[..], colSorted[..]);
      assert order[..n + 1][..n] == order[..n];
    }
    assert order[..|order|] == order;
    BlocksCover(ids, experts, size, order);
    StoredAll(ids, experts, rowSorted[..], colSorted[..], row0, col0);
  }

  const SENTINEL := 0x7FFFFFFF

  /** How far the dispatch buffer has been filled: the first `n` places have been stored. */
  ghost predicate Dispatched(ids: seq<int>, experts: nat, dispatch: seq<int>, n: nat) {
    && |dispatch| == |ids|
    && forall i :: 0 <= i < |ids| ==>
         dispatch[i] == if Active(ids, experts, i) && Place(ids, i) < n then Place(ids, i) else -1
  }

  lemma DispatchNext(ids: seq<int>, experts: nat, width: nat, sorted: seq<int>, dispatch: seq<int>, p: nat)
    requires Fits(ids, experts, width, SENTINEL) && sorted == Sorted(GlobalKeys(ids, experts, width, SENTINEL))
    requires p < |sorted| && Dispatched(ids, experts, dispatch, p)
    ensures sorted[p] == SENTINEL ==> Dispatched(ids, experts, dispatch, p + 1)
    ensures sorted[p] != SENTINEL ==>
              width > 0 && sorted[p] % width < |ids| &&
              Dispatched(ids, experts, dispatch[sorted[p] % width := p], p + 1)
  {
    hide Sorted, Place;
    SortedPlaces(ids, experts, width, SENTINEL, sorted, p);
    forall i | 0 <= i < |ids| && Active(ids, experts, i) && Place(ids, i) == p
      ensures sorted[p] != SENTINEL && i == sorted[p] % width
    {
      PlaceBounded(ids, experts, i);
      if i != sorted[p] % width {
        PlaceInjective(ids, experts, i, sorted[p] % width);
      }
    }
  }

  lemma DispatchDone(ids: seq<int>, experts: nat, width: nat, sorted: seq<int>, dispatch: seq<int>, combine: seq<int>)
    requires Fits(ids, experts, width, SENTINEL) && sorted == Sorted(GlobalKeys(ids, experts, width, SENTINEL))
    requires |sorted| == width && Dispatched(ids, experts, dispatch, width) && |combine| == |ids|
    requires forall p :: 0 <= p < |ids| ==> Combined(sorted, width, p, combine[p])
    ensures Routed(ids, experts, dispatch, combine)
  {
    hide Sorted, Place;
    forall i | 0 <= i < |ids| ensures dispatch[i] == if Active(ids, experts, i) then Place(ids, i) else -1 {
      if Active(ids, experts, i) {
        PlaceBounded(ids, experts, i);
      }
    }
    forall p | 0 <= p < |ids|
      ensures if p < CountLess(ids, experts) then Active(ids, experts, combine[p]) && Place(ids, combine[p]) == p
              else combine[p] == -1
    {
      assert Combined(sorted, width, p, combine[p]);
      SortedPlaces(ids, experts, width, SENTINEL, sorted, p);
    }
  }

  predicate Combined(sorted: seq<int>, width: nat, p: nat, index: int) {
    p < |sorted| && width > 0 && index == if sorted[p] != SENTINEL then sorted[p] % width else -1
  }

  predicate Weighed(weights: seq<real>, index: int, weight: real) {
    index < |weights| && weight == if index >= 0 then weights[index] else -1.0
  }

  /** The first stores: the sorted order, the weights in that order, and an empty dispatch buffer. */
  method StoreSorted(ids: seq<int>, weights: seq<real>, experts: nat, width: nat, sorted: seq<int>,
                     combine: array<int>, dispatch: array<int>, gate: array<real>)
    requires combine != dispatch && combine.Length == dispatch.Length == gate.Length == |ids| == |weights|
    requires Fits(ids, experts, width, SENTINEL) && |sorted| == width
    requires sorted == Sorted(GlobalKeys(ids, experts, width, SENTINEL))
    modifies combine, dispatch, gate
    ensures forall p :: 0 <= p < |ids| ==> Combined(sorted, width, p, combine[p])
    ensures forall p :: 0 <= p < |ids| ==> Weighed(weights, combine[p], gate[p])
    ensures forall p :: 0 <= p < |ids| ==> dispatch[p] == -1
  {
    hide Sorted, Place;
    for p := 0 to |ids|
      invariant forall q :: 0 <= q < p ==> Combined(sorted, width, q, combine[q])
      invariant forall q :: 0 <= q < p ==> Weighed(weights, combine[q], gate[q])
      invariant forall q :: 0 <= q < p ==> dispatch[q] == -1
    {
      SortedPlaces(ids, experts, width, SENTINEL, sorted, p);
      var active := sorted[p] != SENTINEL;
      var index := if active then sorted[p] % width else -1;
      combine[p] := index;
      gate[p] := if active then weights[index] else -1.0;
      dispatch[p] := -1;
    }
  }

  /** The sorting half of the single-program kernel: the same buffers as the blockwise kernel's, and
      the weights in the sorted order. */
  method SortOnce(ids: seq<int>, weights: seq<real>, experts: nat, width: nat, combine: array<int>,
                  dispatch: array<int>, gate: array<real>)
    requires combine != dispatch && combine.Length == dispatch.Length == gate.Length == |ids| == |weights|
    requires Fits(ids, experts, width, SENTINEL)
    modifies combine, dispatch, gate
    ensures Routed(ids, experts, dispatch[..], combine[..])
    ensures forall p :: 0 <= p < |ids| ==> Weighed(weights, combine[p], gate[p])
  {
    hide Sorted, Routed, Place, Dispatched, Combined, Weighed;
    var sorted := Sorted(GlobalKeys(ids, experts, width, SENTINEL));
    SortedAscending(GlobalKeys(ids, experts, width, SENTINEL));
    StoreSorted(ids, weights, experts, width, sorted, combine, dispatch, gate);
    NoneDispatched(ids, experts, dispatch[..]);
    for p := 0 to width
      modifies dispatch
      invariant forall q :: 0 <= q < |ids| ==> Combined(sorted, width, q, combine[q])
      invariant forall q :: 0 <= q < |ids| ==> Weighed(weights, combine[q], gate[q])
      invariant Dispatched(ids, experts, dispatch[..], p)
    {
      DispatchNext(ids, experts, width, sorted, dispatch[..], p);
      if sorted[p] != SENTINEL {
        dispatch[sorted[p] % width] := p;
      }
    }
    DispatchDone(ids, experts, width, sorted, dispatch[..], combine[..]);
  }

  lemma NoneDispatched(ids: seq<int>, experts: nat, dispatch: seq<int>)
    requires |dispatch| == |ids| && forall i :: 0 <= i < |ids| ==> dispatch[i] == -1
    ensures Dispatched(ids, experts, dispatch, 0)
  {
  }
}
