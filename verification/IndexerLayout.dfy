/** The tiled layout of the indexer's key cache: one address map shared by two writers and two readers,
    and the kernels that store quantized keys and gather them again.
 */
module IndexerLayout {
  import opened Division

  /** Values per key. */
  const HEAD := 128

  /** Where value d of token t of a block lies: tiles of 16 tokens by 16 values. */
  function Address(t: nat, d: nat): nat {
    t / 16 * 2048 + d / 16 * 256 + t % 16 * 16 + d % 16
  }

  /** The address the quantizing writer and the gathering reader compute. */
  function TiledOffset(t: nat, d: nat): nat {
    t / 16 * 16 * HEAD + t % 16 * 16 + (d / 16 * 16 * 16 + d % 16)
  }

  /** The address the compressing writer computes. */
  function CompressOffset(t: nat, d: nat): nat {
    t / 16 * 16 * HEAD + d / 16 * 16 * 16 + t % 16 * 16 + d % 16
  }

  /** The address the paged-logits reader computes for lane i of the stage at position `at`. */
  function StageOffset(at: nat, lane: nat, kvBlock: nat, d: nat): nat
    requires kvBlock > 0
  {
    d % 16 + d / 16 * 256 + (lane % 16 * 16 + lane % kvBlock / 16 * 16 * 128) + at % kvBlock * HEAD
  }

  /** Both writers and both readers use the one map. */
  lemma LayoutsAgree(t: nat, d: nat)
    ensures TiledOffset(t, d) == Address(t, d) && CompressOffset(t, d) == Address(t, d)
  {
  }

  lemma StageAgrees(at: nat, lane: nat, kvBlock: nat, d: nat)
    requires kvBlock > 0 && at % kvBlock % 16 == 0 && lane < kvBlock
    ensures StageOffset(at, lane, kvBlock, d) == Address(at % kvBlock + lane, d)
  {
    var q := at % kvBlock / 16;
    assert at % kvBlock == 16 * q;
    assert lane % kvBlock == lane by {
      SmallMod(lane, kvBlock);
    }
    Sixteens(q, lane);
  }

  lemma SmallMod(a: nat, b: nat)
    requires a < b
    ensures a % b == a
  {
  }

  lemma Sixteens(q: nat, r: nat)
    ensures (16 * q + r) / 16 == q + r / 16 && (16 * q + r) % 16 == r % 16
  {
  }

  function TokenOf(a: nat): nat {
    a / 2048 * 16 + a % 256 / 16
  }

  function ValueOf(a: nat): nat {
    a % 2048 / 256 * 16 + a % 16
  }

  lemma RowPart(row: nat, rest: nat)
    requires rest < 2048
    ensures (row * 2048 + rest) / 2048 == row && (row * 2048 + rest) % 2048 == rest
  {
  }

  lemma TilePart(tile: nat, cell: nat)
    requires cell < 256
    ensures (tile * 256 + cell) / 256 == tile && (tile * 256 + cell) % 256 == cell
  {
  }

  lemma TileParts(row: nat, tile: nat, cell: nat)
    requires tile < 8 && cell < 256
    ensures var a := row * 2048 + tile * 256 + cell;
            && a / 2048 == row && a % 2048 == tile * 256 + cell && a % 256 == cell && a % 16 == cell % 16
            && a % 2048 / 256 == tile
  {
    var a := row * 2048 + tile * 256 + cell;
    RowPart(row, tile * 256 + cell);
    TilePart(tile, cell);
    TilePart(row * 8 + tile, cell);
    CellParts(cell / 16, cell % 16);
    JoinParts(row * 128 + tile * 16 + cell / 16, cell % 16);
    assert a == (row * 128 + tile * 16 + cell / 16) * 16 + cell % 16;
  }

  lemma CellParts(i: nat, j: nat)
    requires i < 16 && j < 16
    ensures (i * 16 + j) / 16 == i && (i * 16 + j) % 16 == j
  {
  }

  /** The map is a bijection between the values of a block's tokens and the block's cells. */
  lemma AddressInverse(t: nat, d: nat)
    requires d < HEAD
    ensures TokenOf(Address(t, d)) == t && ValueOf(Address(t, d)) == d
  {
    var row, i, tile, j := t / 16, t % 16, d / 16, d % 16;
    TileParts(row, tile, i * 16 + j);
    CellParts(i, j);
    assert Address(t, d) == row * 2048 + tile * 256 + (i * 16 + j);
  }

  lemma AddressOnto(blockSize: nat, a: nat)
    requires blockSize % 16 == 0 && a < blockSize * HEAD
    ensures TokenOf(a) < blockSize && ValueOf(a) < HEAD && Address(TokenOf(a), ValueOf(a)) == a
  {
    var row, tile, cell := a / 2048, a % 2048 / 256, a % 256;
    ThreeParts(a);
    TileParts(row, tile, cell);
    CellParts(cell / 16, cell % 16);
    RowInside(blockSize, a);
    assert TokenOf(a) == row * 16 + cell / 16 && ValueOf(a) == tile * 16 + cell % 16;
    CellParts(cell / 16, cell % 16);
    JoinParts(row, cell / 16);
    JoinParts(tile, cell % 16);
  }

  lemma ThreeParts(a: nat)
    ensures a == a / 2048 * 2048 + a % 2048 / 256 * 256 + a % 256 && a % 2048 / 256 < 8
  {
    var rest := a % 2048;
    assert rest == rest / 256 * 256 + rest % 256;
    assert a == (a / 2048 * 8 + rest / 256) * 256 + rest % 256;
  }

  lemma JoinParts(q: nat, r: nat)
    requires r < 16
    ensures (q * 16 + r) / 16 == q && (q * 16 + r) % 16 == r
  {
  }

  lemma RowInside(blockSize: nat, a: nat)
    requires blockSize % 16 == 0 && a < blockSize * HEAD
    ensures a / 2048 * 16 + 16 <= blockSize
  {
    assert blockSize == blockSize / 16 * 16;
    assert a < blockSize / 16 * 2048;
  }

  lemma AddressInside(blockSize: nat, t: nat, d: nat)
    requires blockSize % 16 == 0 && t < blockSize && d < HEAD
    ensures Address(t, d) < blockSize * HEAD
  {
    assert t / 16 * 16 + 16 <= blockSize;
    assert t / 16 * 2048 + 2048 <= blockSize * 128;
  }

  lemma AddressInjective(t: nat, d: nat, t': nat, d': nat)
    requires d < HEAD && d' < HEAD && Address(t, d) == Address(t', d')
    ensures t == t' && d == d'
  {
    hide Address, TokenOf, ValueOf;
    AddressInverse(t, d);
    AddressInverse(t', d');
  }

  /** A block of one token is stored in plain order, any other in tiles. */
  function Offset(blockSize: nat, t: nat, d: nat): nat {
    if blockSize == 1 then t * HEAD + d else TiledOffset(t, d)
  }

  predicate Layout(blockSize: nat) {
    blockSize == 1 || (blockSize > 0 && blockSize % 16 == 0)
  }

  lemma OffsetProper(blockSize: nat, t: nat, d: nat)
    requires Layout(blockSize) && t < blockSize && d < HEAD
    ensures Offset(blockSize, t, d) < blockSize * HEAD
  {
    if blockSize != 1 {
      LayoutsAgree(t, d);
      AddressInside(blockSize, t, d);
    }
  }

  lemma OffsetInjective(blockSize: nat, t: nat, d: nat, t': nat, d': nat)
    requires Layout(blockSize) && t < blockSize && t' < blockSize && d < HEAD && d' < HEAD
    requires Offset(blockSize, t, d) == Offset(blockSize, t', d')
    ensures t == t' && d == d'
  {
    if blockSize != 1 {
      LayoutsAgree(t, d);
      LayoutsAgree(t', d');
      AddressInjective(t, d, t', d');
    }
  }

  function Flat(block: nat, x: nat, stride: nat): nat {
    block * stride + x
  }

  /** A cache of blocks, `stride` cells apart, each with its keys' values first. */
  datatype Cache = Cache(blockSize: nat, stride: nat, blocks: nat) {
    predicate Valid() {
      blockSize > 0 && Layout(blockSize) && stride >= blockSize * HEAD
    }

    predicate Has(slot: int) {
      blockSize > 0 && 0 <= slot && slot / blockSize < blocks
    }

    function Cell(slot: nat, d: nat): nat
      requires blockSize > 0
    {
      Flat(slot / blockSize, Offset(blockSize, slot % blockSize, d), stride)
    }
  }

  lemma FlatInside(block: nat, x: nat, stride: nat, blocks: nat)
    requires block < blocks && x < stride
    ensures Flat(block, x, stride) < blocks * stride
  {
    MulStep(block, blocks, stride);
  }

  lemma OffsetFits(c: Cache, t: nat, d: nat)
    requires c.Valid() && t < c.blockSize && d < HEAD
    ensures Offset(c.blockSize, t, d) < c.stride
  {
    hide Offset;
    OffsetProper(c.blockSize, t, d);
  }

  lemma CellIs(c: Cache, slot: nat, d: nat) returns (block: nat, t: nat)
    requires c.blockSize > 0
    ensures t < c.blockSize && block == slot / c.blockSize && t == slot % c.blockSize
    ensures c.Cell(slot, d) == Flat(block, Offset(c.blockSize, t, d), c.stride)
  {
    block, t := slot / c.blockSize, slot % c.blockSize;
  }

  lemma CellInside(c: Cache, slot: nat, d: nat)
    requires c.Valid() && c.Has(slot) && d < HEAD
    ensures c.Cell(slot, d) < c.blocks * c.stride
  {
    hide Offset, Flat, Cache.Cell, Layout;
    var block, t := CellIs(c, slot, d);
    OffsetFits(c, t, d);
    FlatInside(block, Offset(c.blockSize, t, d), c.stride, c.blocks);
  }

  lemma BlocksApart(a: nat, x: nat, b: nat, y: nat, stride: nat)
    requires x < stride && y < stride && Flat(a, x, stride) == Flat(b, y, stride)
    ensures a == b && x == y
  {
    RowsApart(a, x, b, y, stride);
  }

  lemma SlotParts(slot: nat, slot': nat, b: nat)
    requires b > 0 && slot / b == slot' / b && slot % b == slot' % b
    ensures slot == slot'
  {
    assert slot == slot / b * b + slot % b;
    assert slot' == slot' / b * b + slot' % b;
  }

  /** Different values of different slots lie in different cells. */
  lemma CellInjective(c: Cache, slot: nat, d: nat, slot': nat, d': nat)
    requires c.Valid() && d < HEAD && d' < HEAD && c.Cell(slot, d) == c.Cell(slot', d')
    ensures slot == slot' && d == d'
  {
    hide Offset, Flat, Cache.Cell, Layout;
    var block, t := CellIs(c, slot, d);
    var block', t' := CellIs(c, slot', d');
    OffsetFits(c, t, d);
    OffsetFits(c, t', d');
    BlocksApart(block, Offset(c.blockSize, t, d), block', Offset(c.blockSize, t', d'), c.stride);
    OffsetInjective(c.blockSize, t, d, t', d');
    SlotParts(slot, slot', c.blockSize);
  }

  /** The key a slot holds. */
  ghost predicate HoldsKey(c: Cache, cells: seq<int>, slot: nat, key: seq<int>)
    requires c.Valid()
  {
    |key| == HEAD && c.Has(slot) && |cells| >= c.blocks * c.stride &&
    forall d: nat :: d < HEAD ==> CellHas(c, cells, slot, d, key[d])
  }

  ghost predicate CellHas(c: Cache, cells: seq<int>, slot: nat, d: nat, value: int)
    requires c.Valid()
  {
    c.Cell(slot, d) < |cells| && cells[c.Cell(slot, d)] == value
  }

  /** The first n values of the slot's key are stored, and nothing else has changed. */
  ghost predicate Storing(c: Cache, before: seq<int>, cells: seq<int>, slot: nat, key: seq<int>, n: nat)
    requires c.Valid() && |key| == HEAD && n <= HEAD
  {
    && |cells| == |before|
    && (forall d: nat :: d < n ==> CellHas(c, cells, slot, d, key[d]))
    && (forall a :: 0 <= a < |cells| && (forall d: nat :: d < n ==> a != c.Cell(slot, d)) ==> cells[a] == before[a])
  }

  lemma StoringNext(c: Cache, before: seq<int>, cells: seq<int>, slot: nat, key: seq<int>, n: nat)
    requires c.Valid() && c.Has(slot) && |key| == HEAD && n < HEAD && |cells| >= c.blocks * c.stride
    requires Storing(c, before, cells, slot, key, n)
    ensures c.Cell(slot, n) < |cells|
    ensures Storing(c, before, cells[c.Cell(slot, n) := key[n]], slot, key, n + 1)
  {
    CellInside(c, slot, n);
    hide Cache.Cell;
    var next := cells[c.Cell(slot, n) := key[n]];
    forall d: nat | d < n ensures CellHas(c, next, slot, d, key[d]) {
      assert CellHas(c, cells, slot, d, key[d]);
      if c.Cell(slot, d) == c.Cell(slot, n) {
        CellInjective(c, slot, d, slot, n);
      }
    }
  }

  /** The write of one token, to the slot its mapping names; a negative slot is skipped. */
  method StoreToken(c: Cache, cells: array<int>, scales: array<real>, slot: int, key: seq<int>, scale: real)
    requires c.Valid() && |key| == HEAD && cells.Length >= c.blocks * c.stride
        && scales.Length >= c.blocks * c.blockSize
    requires slot >= 0 ==> c.Has(slot)
    modifies cells, scales
    ensures slot < 0 ==> cells[..] == old(cells[..]) && scales[..] == old(scales[..])
    ensures slot >= 0 ==> Storing(c, old(cells[..]), cells[..], slot, key, HEAD)
    ensures slot >= 0 ==> slot < scales.Length && scales[..] == old(scales[..])[slot := scale]
  {
    hide Storing, Cache.Cell;
    if slot < 0 {
      return;
    }
    StoringNone(c, cells[..], slot, key);
    for d := 0 to HEAD
      modifies cells
      invariant Storing(c, old(cells[..]), cells[..], slot, key, d)
    {
      StoringNext(c, old(cells[..]), cells[..], slot, key, d);
      cells[c.Cell(slot, d)] := key[d];
    }
    SlotScale(c, slot);
    scales[slot / c.blockSize * c.blockSize + slot % c.blockSize] := scale;
  }

  /** The compressing writer's store of one token: its own offsets, the same cells. */
  method CompressToken(c: Cache, cells: array<int>, scales: array<real>, slot: int, key: seq<int>, scale: real)
    requires c.Valid() && |key| == HEAD && cells.Length >= c.blocks * c.stride
    requires scales.Length >= c.blocks * c.blockSize
    requires slot >= 0 ==> c.Has(slot)
    modifies cells, scales
    ensures slot < 0 ==> cells[..] == old(cells[..]) && scales[..] == old(scales[..])
    ensures slot >= 0 ==> Storing(c, old(cells[..]), cells[..], slot, key, HEAD)
    ensures slot >= 0 ==> slot < scales.Length && scales[..] == old(scales[..])[slot := scale]
  {
    hide Storing;
    if slot < 0 {
      return;
    }
    var start, pos := slot / c.blockSize * c.stride, slot % c.blockSize;
    StoringNone(c, cells[..], slot, key);
    for d := 0 to HEAD
      modifies cells
      invariant Storing(c, old(cells[..]), cells[..], slot, key, d)
    {
      var offset := if c.blockSize > 1 then CompressOffset(pos, d) else pos * HEAD + d;
      CompressCell(c, slot, d);
      StoringNext(c, old(cells[..]), cells[..], slot, key, d);
      cells[start + offset] := key[d];
    }
    SlotScale(c, slot);
    scales[slot / c.blockSize * c.blockSize + pos] := scale;
  }

  lemma CompressCell(c: Cache, slot: nat, d: nat)
    requires c.Valid()
    ensures var pos := slot % c.blockSize;
            c.Cell(slot, d) ==
              slot / c.blockSize * c.stride + if c.blockSize > 1 then CompressOffset(pos, d) else pos * HEAD + d
  {
    LayoutsAgree(slot % c.blockSize, d);
  }

  lemma StoringNone(c: Cache, cells: seq<int>, slot: nat, key: seq<int>)
    requires c.Valid() && |key| == HEAD
    ensures Storing(c, cells, cells, slot, key, 0)
  {
  }

  lemma SlotScale(c: Cache, slot: nat)
    requires c.Valid() && c.Has(slot)
    ensures slot / c.blockSize * c.blockSize + slot % c.blockSize == slot < c.blocks * c.blockSize
  {
    MulStep(slot / c.blockSize, c.blocks, c.blockSize);
  }

  /** A stored key is held, and every other slot's key is untouched. */
  lemma StoredKeys(c: Cache, before: seq<int>, cells: seq<int>, slot: nat, key: seq<int>, other: nat, held: seq<int>)
    requires c.Valid() && c.Has(slot) && |key| == HEAD && Storing(c, before, cells, slot, key, HEAD)
    requires |cells| >= c.blocks * c.stride
    ensures HoldsKey(c, cells, slot, key)
    ensures other != slot && HoldsKey(c, before, other, held) ==> HoldsKey(c, cells, other, held)
  {
    hide Cache.Cell;
    if other != slot && HoldsKey(c, before, other, held) {
      forall d: nat | d < HEAD ensures CellHas(c, cells, other, d, held[d]) {
        assert CellHas(c, before, other, d, held[d]);
        forall d': nat | d' < HEAD ensures c.Cell(other, d) != c.Cell(slot, d') {
          if c.Cell(other, d) == c.Cell(slot, d') {
            CellInjective(c, other, d, slot, d');
          }
        }
      }
    }
  }

  /** The last of the tokens run so far that was mapped to the slot, if any. */
  function LastTo(order: seq<nat>, slots: seq<int>, slot: nat): int
    requires forall i :: 0 <= i < |order| ==> order[i] < |slots|
  {
    if order == [] then -1
    else if slots[order[|order| - 1]] == slot then order[|order| - 1]
    else LastTo(order[..|order| - 1], slots, slot)
  }

  predicate Mapped(c: Cache, slots: seq<int>, keys: seq<seq<int>>) {
    && |keys| == |slots| && (forall i :: 0 <= i < |keys| ==> |keys[i]| == HEAD)
    && forall i :: 0 <= i < |slots| && slots[i] >= 0 ==> c.Has(slots[i])
  }

  /** Each slot written by the tokens run so far holds the key of the last of them. */
  ghost predicate HoldsLast(c: Cache, order: seq<nat>, slots: seq<int>, keys: seq<seq<int>>, cells: seq<int>)
    requires c.Valid() && Mapped(c, slots, keys)
    requires forall i :: 0 <= i < |order| ==> order[i] < |slots|
  {
    forall slot: nat :: LastTo(order, slots, slot) >= 0 ==>
                          LastTo(order, slots, slot) < |keys|
                              && HoldsKey(c, cells, slot, keys[LastTo(order, slots, slot)])
  }

  /** Each slot's scale is the one of the last of those tokens, and is untouched if there is none. */
  ghost predicate ScalesLast(order: seq<nat>, slots: seq<int>, keyScales: seq<real>, before: seq<real>,
                             scales: seq<real>)
    requires |keyScales| == |slots| && forall i :: 0 <= i < |order| ==> order[i] < |slots|
  {
    && |scales| == |before|
    && forall slot: nat :: slot < |scales| ==>
         scales[slot] == if LastTo(order, slots, slot) >= 0 then ScaleOf(keyScales, LastTo(order, slots, slot))
                         else before[slot]
  }

  function ScaleOf(keyScales: seq<real>, i: nat): real {
    if i < |keyScales| then keyScales[i] else 0.0
  }

  lemma ScalesNext(order: seq<nat>, slots: seq<int>, keyScales: seq<real>, before: seq<real>, scales: seq<real>,
                   tid: nat)
    requires |keyScales| == |slots| && (forall i :: 0 <= i < |order| ==> order[i] < |slots|) && tid < |slots|
    requires ScalesLast(order, slots, keyScales, before, scales) && slots[tid] < |scales|
    ensures ScalesLast(order + [tid], slots, keyScales, before,
                       if slots[tid] < 0 then scales else scales[slots[tid] := keyScales[tid]])
  {
    hide LastTo;
    forall slot: nat ensures LastTo(order + [tid], slots, slot) ==
                             if slots[tid] == slot then tid else LastTo(order, slots, slot) {
      LastSnoc(order, slots, tid, slot);
    }
  }

  /** A slot's cells are as they were. */
  ghost predicate SlotKept(c: Cache, before: seq<int>, cells: seq<int>, slot: nat)
    requires c.Valid()
  {
    forall d: nat :: d < HEAD && c.Cell(slot, d) < |cells| && c.Cell(slot, d) < |before| ==>
                       cells[c.Cell(slot, d)] == before[c.Cell(slot, d)]
  }

  /** The slots that none of those tokens is mapped to keep their keys. */
  ghost predicate OthersKept(c: Cache, order: seq<nat>, slots: seq<int>, before: seq<int>, cells: seq<int>)
    requires c.Valid() && forall i :: 0 <= i < |order| ==> order[i] < |slots|
  {
    && |cells| == |before|
    && forall slot: nat :: LastTo(order, slots, slot) < 0 ==> SlotKept(c, before, cells, slot)
  }

  lemma OthersNone(c: Cache, slots: seq<int>, cells: seq<int>)
    requires c.Valid()
    ensures OthersKept(c, [], slots, cells, cells)
  {
  }

  lemma SlotKeptOn(c: Cache, before: seq<int>, mid: seq<int>, cells: seq<int>, slot: nat, key: seq<int>, other: nat)
    requires c.Valid() && |key| == HEAD && |mid| == |before| && Storing(c, mid, cells, slot, key, HEAD)
    requires other != slot && SlotKept(c, before, mid, other)
    ensures SlotKept(c, before, cells, other)
  {
    hide Cache.Cell;
    forall d: nat | d < HEAD && c.Cell(other, d) < |cells| ensures cells[c.Cell(other, d)] == before[c.Cell(other, d)] {
      forall d': nat | d' < HEAD ensures c.Cell(other, d) != c.Cell(slot, d') {
        if c.Cell(other, d) == c.Cell(slot, d') {
          CellInjective(c, other, d, slot, d');
        }
      }
    }
  }

  lemma OthersNext(c: Cache, order: seq<nat>, slots: seq<int>, before: seq<int>, mid: seq<int>, cells: seq<int>,
                   key: seq<int>, tid: nat)
    requires c.Valid() && (forall i :: 0 <= i < |order| ==> order[i] < |slots|) && tid < |slots| && |key| == HEAD
    requires OthersKept(c, order, slots, before, mid)
    requires if slots[tid] < 0 then cells == mid else Storing(c, mid, cells, slots[tid], key, HEAD)
    ensures OthersKept(c, order + [tid], slots, before, cells)
  {
    hide LastTo, SlotKept;
    assert |cells| == |mid|;
    forall slot: nat | LastTo(order + [tid], slots, slot) < 0 ensures SlotKept(c, before, cells, slot) {
      LastSnoc(order, slots, tid, slot);
      if slots[tid] >= 0 {
        SlotKeptOn(c, before, mid, cells, slots[tid], key, slot);
      }
    }
  }

  lemma LastSnoc(order: seq<nat>, slots: seq<int>, tid: nat, slot: nat)
    requires tid < |slots| && forall i :: 0 <= i < |order| ==> order[i] < |slots|
    ensures LastTo(order + [tid], slots, slot) == if slots[tid] == slot then tid else LastTo(order, slots, slot)
  {
    assert (order + [tid])[..|order|] == order;
  }

  lemma LastSkipped(c: Cache, order: seq<nat>, slots: seq<int>, keys: seq<seq<int>>, cells: seq<int>, tid: nat)
    requires c.Valid() && Mapped(c, slots, keys) && tid < |slots| && slots[tid] < 0
    requires forall i :: 0 <= i < |order| ==> order[i] < |slots|
    requires HoldsLast(c, order, slots, keys, cells)
    ensures HoldsLast(c, order + [tid], slots, keys, cells)
  {
    forall slot: nat ensures LastTo(order + [tid], slots, slot) == LastTo(order, slots, slot) {
      LastSnoc(order, slots, tid, slot);
    }
  }

  lemma LastStored(c: Cache, order: seq<nat>, slots: seq<int>, keys: seq<seq<int>>, before: seq<int>, cells: seq<int>,
                   tid: nat)
    requires c.Valid() && Mapped(c, slots, keys) && tid < |slots| && slots[tid] >= 0
    requires forall i :: 0 <= i < |order| ==> order[i] < |slots|
    requires HoldsLast(c, order, slots, keys, before) && |cells| >= c.blocks * c.stride
    requires Storing(c, before, cells, slots[tid], keys[tid], HEAD)
    ensures HoldsLast(c, order + [tid], slots, keys, cells)
  {
    hide HoldsKey, Storing, LastTo;
    forall slot: nat | LastTo(order + [tid], slots, slot) >= 0
      ensures LastTo(order + [tid], slots, slot) < |keys|
      ensures HoldsKey(c, cells, slot, keys[LastTo(order + [tid], slots, slot)])
    {
      LastSnoc(order, slots, tid, slot);
      var last := LastTo(order, slots, slot);
      StoredKeys(c, before, cells, slots[tid], keys[tid], slot, if slot == slots[tid] then keys[tid] else keys[last]);
    }
  }

  /** The write kernel: its programs, one per token, in any order. Each slot ends up with the key of the
      last token written to it. */
  method IndexerKQuantAndCache(c: Cache, cells: array<int>, scales: array<real>, order: seq<nat>, slots: seq<int>,
                               keys: seq<seq<int>>, keyScales: seq<real>)
    requires c.Valid() && Mapped(c, slots, keys) && |keyScales| == |slots|
    requires cells.Length >= c.blocks * c.stride && scales.Length >= c.blocks * c.blockSize
    requires forall i :: 0 <= i < |order| ==> order[i] < |slots|
    modifies cells, scales
    ensures HoldsLast(c, order, slots, keys, cells[..])
    ensures ScalesLast(order, slots, keyScales, old(scales[..]), scales[..])
    ensures OthersKept(c, order, slots, old(cells[..]), cells[..])
  {
    hide HoldsLast, ScalesLast, OthersKept, Storing, Cache.Has;
    OthersNone(c, slots, cells[..]);
    NoneHeld(c, slots, keys, cells[..]);
    NoScaleYet(slots, keyScales, scales[..]);
    for n := 0 to |order|
      invariant HoldsLast(c, order[..n], slots, keys, cells[..])
      invariant ScalesLast(order[..n], slots, keyScales, old(scales[..]), scales[..])
      invariant OthersKept(c, order[..n], slots, old(cells[..]), cells[..])
    {
      var tid := order[n];
      ghost var before, scales0 := cells[..], scales[..];
      StoreToken(c, cells, scales, slots[tid], keys[tid], keyScales[tid]);
      assert order[..n + 1] == order[..n] + [tid];
      ScalesNext(order[..n], slots, keyScales, old(scales[..]), scales0, tid);
      OthersNext(c, order[..n], slots, old(cells[..]), before, cells[..], keys[tid], tid);
      if slots[tid] < 0 {
        LastSkipped(c, order[..n], slots, keys, cells[..], tid);
      } else {
        LastStored(c, order[..n], slots, keys, before, cells[..], tid);
      }
    }
    assert order[..|order|] == order;
  }

  lemma NoScaleYet(slots: seq<int>, keyScales: seq<real>, scales: seq<real>)
    requires |keyScales| == |slots|
    ensures ScalesLast([], slots, keyScales, scales, scales)
  {
  }

  lemma NoneHeld(c: Cache, slots: seq<int>, keys: seq<seq<int>>, cells: seq<int>)
    requires c.Valid() && Mapped(c, slots, keys)
    ensures HoldsLast(c, [], slots, keys, cells)
  {
  }

  /** Where a token's key is, by its sequence's page table; absent if the token or the entry is invalid. */
  datatype Place = NoToken | NoBlock | At(block: nat, row: nat)

  function RowOf(offset: nat, blockSize: nat): (row: nat)
    requires blockSize > 0
    ensures row < blockSize
  {
    offset % blockSize
  }

  function InTable(blockSize: nat, blocks: nat, offset: nat, table: seq<int>): (place: Place)
    requires blockSize > 0
    ensures place.At? ==> place.block < blocks && place.row < blockSize
  {
    var entry := offset / blockSize;
    if entry >= |table| || !(0 <= table[entry] < blocks) then NoBlock
    else At(table[entry], RowOf(offset, blockSize))
  }

  function PlaceOf(c: Cache, tid: nat, batch: int, starts: seq<int>, tables: seq<seq<int>>): (place: Place)
    requires c.blockSize > 0 && |starts| == |tables| + 1
    ensures place.At? ==> place.block < c.blocks && place.row < c.blockSize
  {
    if !(0 <= batch < |tables|) || tid < starts[batch] || tid >= starts[batch + 1] then NoToken
    else InTable(c.blockSize, c.blocks, tid - starts[batch], tables[batch])
  }

  /** The slot of a row of a block. */
  function SlotAt(c: Cache, block: nat, row: nat): nat {
    block * c.blockSize + row
  }

  lemma SlotAtParts(c: Cache, block: nat, row: nat)
    requires c.Valid() && block < c.blocks && row < c.blockSize
    ensures var slot := SlotAt(c, block, row);
            c.Has(slot) && slot / c.blockSize == block && slot % c.blockSize == row && slot < c.blocks * c.blockSize
  {
    hide Layout;
    DivUnique(SlotAt(c, block, row), c.blockSize, block, row);
    MulStep(block, c.blocks, c.blockSize);
  }

  /** The gather of one token: from the block its page table names, its key and its scale; nothing for a
      token of no sequence, a zero scale and no key for an entry of no block. */
  method GatherToken(c: Cache, cells: array<int>, scales: array<real>, tid: nat, batch: int, starts: seq<int>,
                     tables: seq<seq<int>>, keyOut: array<int>, scaleOut: array<real>)
    requires c.Valid() && |starts| == |tables| + 1 && cells != keyOut && scales != scaleOut
    requires cells.Length >= c.blocks * c.stride && scales.Length >= c.blocks * c.blockSize
    requires tid < scaleOut.Length && keyOut.Length == HEAD
    modifies keyOut, scaleOut
    ensures Gathered(c, cells[..], scales[..], PlaceOf(c, tid, batch, starts, tables), tid,
                     old(keyOut[..]), keyOut[..], old(scaleOut[..]), scaleOut[..])
  {
    hide HoldsKey, Layout;
    var place := PlaceOf(c, tid, batch, starts, tables);
    if place.NoBlock? {
      scaleOut[tid] := 0.0;
    } else if place.At? {
      ReadToken(c, cells, scales, place.block, place.row, tid, keyOut, scaleOut);
    }
  }

  ghost predicate Gathered(c: Cache, cells: seq<int>, scales: seq<real>, place: Place, tid: nat, key0: seq<int>,
                           key: seq<int>, scale0: seq<real>, scale: seq<real>)
    requires c.Valid() && |scale| == |scale0| && tid < |scale|
  {
    match place
    case NoToken => key == key0 && scale == scale0
    case NoBlock => key == key0 && scale == scale0[tid := 0.0]
    case At(block, row) =>
      var slot := SlotAt(c, block, row);
      HoldsKey(c, cells, slot, key) && slot < |scales| && scale == scale0[tid := scales[slot]]
  }

  method ReadToken(c: Cache, cells: array<int>, scales: array<real>, block: nat, row: nat, tid: nat,
                   keyOut: array<int>, scaleOut: array<real>)
    requires c.Valid() && block < c.blocks && row < c.blockSize && cells != keyOut && scales != scaleOut
    requires cells.Length >= c.blocks * c.stride && scales.Length >= c.blocks * c.blockSize
    requires tid < scaleOut.Length && keyOut.Length == HEAD
    modifies keyOut, scaleOut
    ensures var slot := SlotAt(c, block, row);
            && slot < scales.Length && scaleOut[..] == old(scaleOut[..])[tid := scales[slot]]
            && HoldsKey(c, cells[..], slot, keyOut[..])
  {
    hide Offset, Layout, Flat;
    ghost var slot := SlotAt(c, block, row);
    SlotAtParts(c, block, row);
    scaleOut[tid] := scales[block * c.blockSize + row];
    for d := 0 to HEAD
      modifies keyOut
      invariant forall x: nat :: x < d ==> CellHas(c, cells[..], slot, x, keyOut[x])
    {
      CellInside(c, slot, d);
      keyOut[d] := cells[Flat(block, Offset(c.blockSize, row, d), c.stride)];
      assert CellHas(c, cells[..], slot, d, keyOut[d]);
    }
  }

  /** Two keys a slot holds are the same key: what is gathered is what was stored. */
  lemma HeldOnce(c: Cache, cells: seq<int>, slot: nat, key: seq<int>, other: seq<int>)
    requires c.Valid() && HoldsKey(c, cells, slot, key) && HoldsKey(c, cells, slot, other)
    ensures key == other
  {
    forall d: nat | d < HEAD ensures key[d] == other[d] {
      assert CellHas(c, cells, slot, d, key[d]) && CellHas(c, cells, slot, d, other[d]);
    }
  }

  /** Gathering returns what was written: for a page table entry that names the slot of a stored token, the
      key and the scale of the last token stored there. */
  lemma GatherReturnsStored(c: Cache, order: seq<nat>, slots: seq<int>, keys: seq<seq<int>>, keyScales: seq<real>,
                            cells: seq<int>, scales0: seq<real>, scales: seq<real>, place: Place, tid: nat,
                            key0: seq<int>, key: seq<int>, scaleOut0: seq<real>, scaleOut: seq<real>)
    requires c.Valid() && Mapped(c, slots, keys) && |keyScales| == |slots| && |scaleOut| == |scaleOut0|
        && tid < |scaleOut|
    requires forall i :: 0 <= i < |order| ==> order[i] < |slots|
    requires HoldsLast(c, order, slots, keys, cells) && ScalesLast(order, slots, keyScales, scales0, scales)
    requires Gathered(c, cells, scales, place, tid, key0, key, scaleOut0, scaleOut)
    requires place.At? && LastTo(order, slots, SlotAt(c, place.block, place.row)) >= 0
    ensures var last := LastTo(order, slots, SlotAt(c, place.block, place.row));
            last < |keys| && key == keys[last] && scaleOut[tid] == keyScales[last]
  {
    hide HoldsKey, LastTo;
    var slot := SlotAt(c, place.block, place.row);
    HeldOnce(c, cells, slot, key, keys[LastTo(order, slots, slot)]);
  }
}
