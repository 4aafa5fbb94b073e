/** What the descriptors of a transfer reach: every logical block of every group once, each in bytes of its
    own, so that a load brings back what a store took away.
 */
module BlockRoundTrip {
  import opened Division
  import opened StagedCopy
  import opened TransferDescriptors

  /** Where the descriptor of block i of reference r of group n stands. */
  function Slot(groups: seq<Group>, n: nat, r: nat, i: nat): nat
    requires n < |groups|
  {
    CopyOps(groups, n) + r * groups[n].size + i
  }

  predicate Block(groups: seq<Group>, n: nat, r: nat, i: nat) {
    n < |groups| && r < |groups[n].refs| && i < groups[n].size
  }

  /** The descriptor that belongs there. */
  function BlockDesc(s: Sides, groups: seq<Group>, src: seq<nat>, dst: seq<nat>, n: nat, r: nat, i: nat): Desc
    requires Matches(s, groups, src, dst) && Block(groups, n, r, i)
  {
    RefDesc(s, groups[n], groups[n].refs[r], GroupBlocks(groups, s.srcPer, src, n),
            GroupBlocks(groups, s.dstPer, dst, n), i)
  }

  lemma {:induction false} GroupAt(s: Sides, g: Group, src: seq<nat>, dst: seq<nat>, refs: nat, r: nat, i: nat)
    requires s.Valid() && s.Has(g) && r < refs <= |g.refs| && i < g.size
    ensures r * g.size + i < |GroupDescs(s, g, src, dst, refs)|
    ensures GroupDescs(s, g, src, dst, refs)[r * g.size + i] == RefDesc(s, g, g.refs[r], src, dst, i)
    decreases refs
  {
    hide RefDesc, RefDescs;
    var before, more := GroupDescs(s, g, src, dst, refs - 1), RefDescs(s, g, g.refs[refs - 1], src, dst);
    GroupCount(s, g, src, dst, refs - 1);
    if r < refs - 1 {
      GroupAt(s, g, src, dst, refs - 1, r, i);
      assert (before + more)[r * g.size + i] == before[r * g.size + i];
    } else {
      RefAt(s, g, g.refs[r], src, dst, i);
      LastRow(before, more, r * g.size, i);
    }
  }

  lemma RefAt(s: Sides, g: Group, ref: Ref, src: seq<nat>, dst: seq<nat>, i: nat)
    requires s.Valid() && ref.tensor < |s.srcTensors| && ref.tensor < |s.dstTensors| && i < g.size
    ensures |RefDescs(s, g, ref, src, dst)| == g.size
    ensures RefDescs(s, g, ref, src, dst)[i] == RefDesc(s, g, ref, src, dst, i)
  {
    hide RefDesc;
  }

  lemma LastRow(before: seq<Desc>, more: seq<Desc>, lo: nat, i: nat)
    requires |before| == lo && i < |more|
    ensures lo + i < |before + more| && (before + more)[lo + i] == more[i]
  {
  }

  /** Every block of every reference of every group has a descriptor, and it is the one at its slot. */
  lemma {:induction false} BlockAt(s: Sides, groups: seq<Group>, src: seq<nat>, dst: seq<nat>, m: nat, n: nat, r: nat,
                                   i: nat)
    requires Matches(s, groups, src, dst) && Block(groups, n, r, i) && n < m <= |groups|
    ensures Slot(groups, n, r, i) < |AllDescs(s, groups, src, dst, m)|
    ensures AllDescs(s, groups, src, dst, m)[Slot(groups, n, r, i)] == BlockDesc(s, groups, src, dst, n, r, i)
    decreases m
  {
    hide RefDesc, GroupDescs, BlocksOf, Offset;
    AllCount(s, groups, src, dst, m - 1);
    if n < m - 1 {
      BlockAt(s, groups, src, dst, m - 1, n, r, i);
    } else {
      GroupAt(s, groups[n], GroupBlocks(groups, s.srcPer, src, n), GroupBlocks(groups, s.dstPer, dst, n),
              |groups[n].refs|, r, i);
    }
  }

  /** Every descriptor is that of some block. */
  lemma {:induction false} SlotDecodes(groups: seq<Group>, m: nat, x: nat) returns (n: nat, r: nat, i: nat)
    requires m <= |groups| && x < CopyOps(groups, m)
    ensures Block(groups, n, r, i) && n < m && x == Slot(groups, n, r, i)
  {
    if x < CopyOps(groups, m - 1) {
      n, r, i := SlotDecodes(groups, m - 1, x);
    } else {
      n := m - 1;
      r, i := RowDecodes(x - CopyOps(groups, n), groups[n].size, |groups[n].refs|);
    }
  }

  lemma RowDecodes(x: nat, size: nat, rows: nat) returns (r: nat, i: nat)
    requires x < size * rows
    ensures r < rows && i < size && x == r * size + i
  {
    assert size != 0;
    r, i := x / size, x % size;
    if r >= rows {
      MulLe(rows, r, size);
    }
  }

  /** A block list holds a request's chunks, from some chunk on. */
  predicate ChunksFrom(blocks: seq<nat>, first: nat, chunkAt: nat -> nat) {
    forall p :: 0 <= p < |blocks| ==> blocks[p] == chunkAt(first + p)
  }

  /** The address of logical block `block` of a request. */
  function LogicalAddress(t: Tensor, per: nat, chunkAt: nat -> nat, block: nat): nat
    requires per > 0
  {
    t.base + chunkAt(block / per) * t.stride + block % per * (t.width / per)
  }

  lemma DivShift(o: nat, i: nat, per: nat)
    requires per > 0
    ensures (o + i) / per == o / per + (o % per + i) / per
    ensures (o + i) % per == (o % per + i) % per
  {
    var k := o % per + i;
    assert o + i == (o / per + k / per) * per + k % per by {
      assert o == o / per * per + o % per && k == k / per * per + k % per;
      assert (o / per + k / per) * per == o / per * per + k / per * per;
    }
    DivUnique(o + i, per, o / per + k / per, k % per);
  }

  lemma WithinBlocks(g: Group, per: nat, i: nat)
    requires per > 0 && i < g.size
    ensures (g.index % per + i) / per < BlocksOf(g, per)
  {
    var k, n := g.index % per + i, BlocksOf(g, per);
    BlocksSuffice(g, per);
    if n <= k / per {
      MulLe(n, k / per, per);
    }
  }

  /** Descriptor i of a group that starts at any block index addresses logical block index + i. */
  lemma AddressesItsBlock(t: Tensor, g: Group, blocks: seq<nat>, per: nat, chunkAt: nat -> nat, i: nat)
    requires per > 0 && i < g.size && |blocks| == BlocksOf(g, per) && ChunksFrom(blocks, g.index / per, chunkAt)
    ensures SubBlock(t, blocks, per, g.index % per + i) == LogicalAddress(t, per, chunkAt, g.index + i)
  {
    WithinBlocks(g, per, i);
    DivShift(g.index, i, per);
  }

  /** The two directions of one pair of caches. */
  predicate Opposite(store: Sides, load: Sides) {
    && store.srcTensors == load.dstTensors && store.dstTensors == load.srcTensors
    && store.srcPer == 1 == load.dstPer && store.dstPer == load.srcPer
  }

  /** One direction's transfer: its groups and the blocks on either side. */
  datatype Spec = Spec(groups: seq<Group>, src: seq<nat>, dst: seq<nat>) {
    predicate For(s: Sides) {
      Matches(s, groups, src, dst)
    }

    function Descs(s: Sides): seq<Desc>
      requires For(s)
    {
      AllDescs(s, groups, src, dst, |groups|)
    }

    function DescOf(s: Sides, n: nat, r: nat, i: nat): Desc
      requires For(s) && Block(groups, n, r, i)
    {
      BlockDesc(s, groups, src, dst, n, r, i)
    }
  }

  /** A finished transfer has moved every block. */
  lemma BlockMoved(s: Sides, spec: Spec, n: nat, r: nat, i: nat, source: seq<int>, before: seq<int>, now: seq<int>)
    requires spec.For(s) && Block(spec.groups, n, r, i) && Copied(spec.Descs(s), source, before, now)
    ensures Moved(spec.DescOf(s, n, r, i), source, now)
  {
    hide Moved, AllDescs, BlockDesc, Matches;
    BlockAt(s, spec.groups, spec.src, spec.dst, |spec.groups|, n, r, i);
  }

  /** A store and a load of one pair of caches in which block i of group n of the one is block j of group n
      of the other: the same logical block of the request. */
  predicate SameBlock(store: Sides, load: Sides, a: Spec, b: Spec, n: nat, r: nat, i: nat, j: nat) {
    && Opposite(store, load) && a.For(store) && b.For(load)
    && Block(a.groups, n, r, i) && Block(b.groups, n, r, j) && a.groups[n].refs[r] == b.groups[n].refs[r]
    && a.groups[n].index + i == b.groups[n].index + j
  }

  /** The CPU blocks of a group hold the request's chunks. */
  predicate HoldsChunks(groups: seq<Group>, per: nat, blocks: seq<nat>, n: nat, chunkAt: nat -> nat)
    requires per > 0 && n < |groups| && Offset(groups, per, |groups|) == |blocks|
  {
    ChunksFrom(GroupBlocks(groups, per, blocks, n), groups[n].index / per, chunkAt)
  }

  lemma GroupAddresses(t: Tensor, groups: seq<Group>, per: nat, blocks: seq<nat>, n: nat, chunkAt: nat -> nat, i: nat)
    requires per > 0 && n < |groups| && Offset(groups, per, |groups|) == |blocks| && i < groups[n].size
    requires HoldsChunks(groups, per, blocks, n, chunkAt)
    ensures SubBlock(t, GroupBlocks(groups, per, blocks, n), per, groups[n].index % per + i)
         == LogicalAddress(t, per, chunkAt, groups[n].index + i)
  {
    hide SubBlock, LogicalAddress, ChunksFrom;
    GroupStretch(groups, per, blocks, n);
    AddressesItsBlock(t, groups[n], GroupBlocks(groups, per, blocks, n), per, chunkAt, i);
  }

  /** Both transfers name the same CPU bytes for a logical block, wherever in a chunk either starts. */
  lemma SameCpuBytes(store: Sides, load: Sides, a: Spec, b: Spec, n: nat, r: nat, i: nat, j: nat, chunkAt: nat -> nat)
    requires SameBlock(store, load, a, b, n, r, i, j)
    requires HoldsChunks(a.groups, store.dstPer, a.dst, n, chunkAt)
    requires HoldsChunks(b.groups, load.srcPer, b.src, n, chunkAt)
    ensures a.DescOf(store, n, r, i).dst == b.DescOf(load, n, r, j).src
    ensures a.DescOf(store, n, r, i).size == b.DescOf(load, n, r, j).size
  {
    hide SubBlock, HoldsChunks, BlocksOf, LogicalAddress, Offset, GroupBlocks;
    var ref := a.groups[n].refs[r];
    GroupAddresses(store.dstTensors[ref.tensor], a.groups, store.dstPer, a.dst, n, chunkAt, i);
    GroupAddresses(load.srcTensors[ref.tensor], b.groups, load.srcPer, b.src, n, chunkAt, j);
  }

  /** The bytes of one page in two memories. */
  ghost predicate SamePage(m: seq<int>, a: nat, k: seq<int>, b: nat, size: nat) {
    a + size <= |m| && b + size <= |k| && m[a..a + size] == k[b..b + size]
  }

  /** Storing a logical block and loading it again is the identity on its bytes, whatever the chunk size,
      the index either transfer starts at, and whether either was staged: all that matters is that the page
      was left alone on the CPU side in between. */
  lemma StoreThenLoad(store: Sides, load: Sides, a: Spec, b: Spec, n: nat, r: nat, i: nat, j: nat, chunkAt: nat -> nat,
                      gpu0: seq<int>, cpu0: seq<int>, cpu1: seq<int>, cpu2: seq<int>, gpu1: seq<int>, gpu2: seq<int>)
    requires SameBlock(store, load, a, b, n, r, i, j)
    requires HoldsChunks(a.groups, store.dstPer, a.dst, n, chunkAt)
    requires HoldsChunks(b.groups, load.srcPer, b.src, n, chunkAt)
    requires Copied(a.Descs(store), gpu0, cpu0, cpu1) && Copied(b.Descs(load), cpu2, gpu1, gpu2)
    requires var page := b.DescOf(load, n, r, j);
             SamePage(cpu1, page.src, cpu2, page.src, page.size)
    ensures var out, back := a.DescOf(store, n, r, i), b.DescOf(load, n, r, j);
            SamePage(gpu2, back.dst, gpu0, out.src, back.size)
  {
    hide Copied, HoldsChunks, AllDescs, BlockDesc, Offset, Sides.Has;
    BlockMoved(store, a, n, r, i, gpu0, cpu0, cpu1);
    BlockMoved(load, b, n, r, j, cpu2, gpu1, gpu2);
    SameCpuBytes(store, load, a, b, n, r, i, j, chunkAt);
  }

  /** A tensor's rows lie apart from those of the others and from one another, whatever their interleaving. */
  ghost predicate RowsDisjoint(tensors: seq<Tensor>) {
    forall t, u, a: nat, b: nat ::
      0 <= t < |tensors| && 0 <= u < |tensors| && a < tensors[t].rows && b < tensors[u].rows && (t != u || a != b) ==>
        Apart(Row(tensors[t], a), tensors[t].width, Row(tensors[u], b), tensors[u].width)
  }

  function Row(t: Tensor, block: nat): nat {
    t.base + block * t.stride
  }

  ghost predicate RowsWithin(tensors: seq<Tensor>, size: nat) {
    forall t, a: nat :: 0 <= t < |tensors| && a < tensors[t].rows ==> Row(tensors[t], a) + tensors[t].width <= size
  }

  predicate Distinct(blocks: seq<nat>) {
    forall p, q :: 0 <= p < q < |blocks| ==> blocks[p] != blocks[q]
  }

  /** What a transfer may rely on: no block named twice as a destination, every block in its tensors, no
      reference longer than a page, and no tensor twice in a group. */
  ghost predicate Sound(s: Sides, spec: Spec, source: nat, target: nat) {
    && spec.For(s) && Distinct(spec.dst) && RowsDisjoint(s.dstTensors)
    && RowsWithin(s.srcTensors, source) && RowsWithin(s.dstTensors, target)
    && (forall n, r :: 0 <= n < |spec.groups| && 0 <= r < |spec.groups[n].refs| ==> RefSound(s, spec, n, r))
    && (forall n, r, q :: 0 <= n < |spec.groups| && 0 <= r < q < |spec.groups[n].refs| ==>
          spec.groups[n].refs[r].tensor != spec.groups[n].refs[q].tensor)
  }

  predicate RefSound(s: Sides, spec: Spec, n: nat, r: nat)
    requires spec.For(s) && n < |spec.groups| && r < |spec.groups[n].refs|
  {
    var ref := spec.groups[n].refs[r];
    var t, u := s.srcTensors[ref.tensor], s.dstTensors[ref.tensor];
    && ref.pageSize <= t.width / s.srcPer && ref.pageSize <= u.width / s.dstPer
    && (forall p :: 0 <= p < |spec.src| ==> spec.src[p] < t.rows)
    && (forall p :: 0 <= p < |spec.dst| ==> spec.dst[p] < u.rows)
  }

  /** A sub-block lies within its row, and two of one row do not overlap. */
  lemma SubBlockInRow(width: nat, per: nat, j: nat, size: nat)
    requires per > 0 && j < per && size <= width / per
    ensures j * (width / per) + size <= width
  {
    var page := width / per;
    MulStep(j, per, page);
    assert per * page <= width;
  }

  lemma SubBlocksOfRowApart(page: nat, j: nat, k: nat, size: nat)
    requires j != k && size <= page
    ensures Apart(j * page, size, k * page, size)
  {
    if j < k {
      MulStep(j, k, page);
    } else {
      MulStep(k, j, page);
    }
  }

  /** Where a block of a group lies on one side: which entry of the block list, which part of that block. */
  function Entry(groups: seq<Group>, per: nat, n: nat, i: nat): nat
    requires per > 0 && n < |groups|
  {
    Offset(groups, per, n) + (groups[n].index % per + i) / per
  }

  lemma EntryPlaces(t: Tensor, groups: seq<Group>, per: nat, blocks: seq<nat>, n: nat, i: nat)
    requires per > 0 && n < |groups| && Offset(groups, per, |groups|) == |blocks| && i < groups[n].size
    ensures Offset(groups, per, n) <= Entry(groups, per, n, i) < Offset(groups, per, n + 1) <= |blocks|
    ensures SubBlock(t, GroupBlocks(groups, per, blocks, n), per, groups[n].index % per + i)
         == Row(t, blocks[Entry(groups, per, n, i)]) + (groups[n].index % per + i) % per * (t.width / per)
  {
    hide BlocksOf;
    WithinBlocks(groups[n], per, i);
    OffsetMonotone(groups, per, n + 1, |groups|);
    var lo, hi, k := Offset(groups, per, n), Offset(groups, per, n + 1), groups[n].index % per + i;
    assert hi == lo + BlocksOf(groups[n], per);
    SubBlockIn(t, blocks, lo, hi, per, k);
  }

  lemma SubBlockIn(t: Tensor, blocks: seq<nat>, lo: nat, hi: nat, per: nat, k: nat)
    requires per > 0 && lo <= hi <= |blocks| && lo + k / per < hi
    ensures SubBlock(t, blocks[lo..hi], per, k) == Row(t, blocks[lo + k / per]) + k % per * (t.width / per)
  {
    hide Row;
    var stretch := blocks[lo..hi];
    assert stretch[k / per] == blocks[lo + k / per];
    RowIs(t, stretch[k / per]);
  }

  lemma RowIs(t: Tensor, block: nat)
    ensures Row(t, block) == t.base + block * t.stride
  {
  }

  /** Different blocks of one reference have different entries or different parts. */
  lemma EntriesDiffer(g: Group, per: nat, i: nat, j: nat)
    requires per > 0 && i != j
    ensures (g.index % per + i) / per != (g.index % per + j) / per
        || (g.index % per + i) % per != (g.index % per + j) % per
  {
    var k, l := g.index % per + i, g.index % per + j;
    assert k == k / per * per + k % per && l == l / per * per + l % per;
  }

  lemma ApartInside(a: nat, n: nat, b: nat, m: nat, x: nat, k: nat, y: nat, l: nat)
    requires Apart(a, n, b, m) && x + k <= n && y + l <= m
    ensures Apart(a + x, k, b + y, l)
  {
  }

  /** A page: which tensor, which block of it, which part of that block. */
  datatype Page = Page(tensor: nat, block: nat, part: nat, size: nat)

  ghost predicate Lies(tensors: seq<Tensor>, per: nat, p: Page)
    requires per > 0
  {
    && p.tensor < |tensors| && p.block < tensors[p.tensor].rows && p.part < per
    && p.size <= tensors[p.tensor].width / per
  }

  function PageAddress(tensors: seq<Tensor>, per: nat, p: Page): nat
    requires per > 0 && p.tensor < |tensors|
  {
    Row(tensors[p.tensor], p.block) + p.part * (tensors[p.tensor].width / per)
  }

  /** Pages differing in tensor, block or part share no byte. */
  lemma PagesApart(tensors: seq<Tensor>, per: nat, p: Page, q: Page)
    requires per > 0 && RowsDisjoint(tensors) && Lies(tensors, per, p) && Lies(tensors, per, q)
    requires p.tensor != q.tensor || p.block != q.block || p.part != q.part
    ensures Apart(PageAddress(tensors, per, p), p.size, PageAddress(tensors, per, q), q.size)
  {
    hide Row;
    var t, u := tensors[p.tensor], tensors[q.tensor];
    if p.tensor == q.tensor && p.block == q.block {
      if p.size <= q.size {
        SubBlocksOfRowApart(t.width / per, p.part, q.part, q.size);
      } else {
        SubBlocksOfRowApart(t.width / per, p.part, q.part, p.size);
      }
    } else {
      SubBlockInRow(t.width, per, p.part, p.size);
      SubBlockInRow(u.width, per, q.part, q.size);
      assert Apart(Row(t, p.block), t.width, Row(u, q.block), u.width);
      ApartInside(Row(t, p.block), t.width, Row(u, q.block), u.width, p.part * (t.width / per), p.size,
                  q.part * (u.width / per), q.size);
    }
  }

  /** The page a block's descriptor writes. */
  function PageOf(s: Sides, spec: Spec, n: nat, r: nat, i: nat): Page
    requires spec.For(s) && Block(spec.groups, n, r, i)
  {
    var groups, per := spec.groups, s.dstPer;
    var ref := groups[n].refs[r];
    EntryInside(groups, per, spec.dst, n, i);
    Page(ref.tensor, spec.dst[Entry(groups, per, n, i)], (groups[n].index % per + i) % per, ref.pageSize)
  }

  lemma EntryInside(groups: seq<Group>, per: nat, blocks: seq<nat>, n: nat, i: nat)
    requires per > 0 && n < |groups| && Offset(groups, per, |groups|) == |blocks| && i < groups[n].size
    ensures Offset(groups, per, n) <= Entry(groups, per, n, i) < Offset(groups, per, n + 1) <= |blocks|
  {
    EntryPlaces(Tensor(0, 0, 0, 0), groups, per, blocks, n, i);
  }

  lemma PageWritten(s: Sides, spec: Spec, source: nat, target: nat, n: nat, r: nat, i: nat)
    requires Sound(s, spec, source, target) && Block(spec.groups, n, r, i)
    ensures var d, page := spec.DescOf(s, n, r, i), PageOf(s, spec, n, r, i);
            && Lies(s.dstTensors, s.dstPer, page) && d.dst == PageAddress(s.dstTensors, s.dstPer, page)
            && d.size == page.size
  {
    hide SubBlock, GroupBlocks, BlocksOf, Offset, RowsWithin, RowsDisjoint, Row, Entry, Distinct;
    var ref := spec.groups[n].refs[r];
    EntryInside(spec.groups, s.dstPer, spec.dst, n, i);
    EntryPlaces(s.dstTensors[ref.tensor], spec.groups, s.dstPer, spec.dst, n, i);
    assert RefSound(s, spec, n, r);
  }

  /** Entries of different groups differ; those of one group differ unless the parts do. */
  lemma EntriesApart(groups: seq<Group>, per: nat, blocks: seq<nat>, n: nat, i: nat, m: nat, j: nat)
    requires per > 0 && n < |groups| && m < |groups| && i < groups[n].size && j < groups[m].size
    requires Offset(groups, per, |groups|) == |blocks| && Entry(groups, per, n, i) == Entry(groups, per, m, j)
    ensures n == m && (i != j ==> (groups[n].index % per + i) % per != (groups[m].index % per + j) % per)
  {
    hide BlocksOf, Offset;
    EntryInside(groups, per, blocks, n, i);
    EntryInside(groups, per, blocks, m, j);
    if n < m {
      OffsetMonotone(groups, per, n + 1, m);
    } else if m < n {
      OffsetMonotone(groups, per, m + 1, n);
    } else if i != j {
      EntriesDiffer(groups[n], per, i, j);
    }
  }

  /** Different blocks of a transfer are different pages. */
  lemma PagesDiffer(s: Sides, spec: Spec, source: nat, target: nat, n: nat, r: nat, i: nat, m: nat, q: nat, j: nat)
    requires Sound(s, spec, source, target) && Block(spec.groups, n, r, i) && Block(spec.groups, m, q, j)
    requires n != m || r != q || i != j
    ensures var a, b := PageOf(s, spec, n, r, i), PageOf(s, spec, m, q, j);
            a.tensor != b.tensor || a.block != b.block || a.part != b.part
  {
    hide Entry, Offset, RowsWithin, RowsDisjoint, BlocksOf, RefSound, Sides.Has;
    var groups, per := spec.groups, s.dstPer;
    EntryInside(groups, per, spec.dst, n, i);
    EntryInside(groups, per, spec.dst, m, j);
    var p, o := Entry(groups, per, n, i), Entry(groups, per, m, j);
    if p == o {
      EntriesApart(groups, per, spec.dst, n, i, m, j);
    } else {
      assert spec.dst[p] != spec.dst[o];
    }
  }

  /** Descriptors of different blocks write different bytes. */
  lemma BlocksApart(s: Sides, spec: Spec, source: nat, target: nat, n: nat, r: nat, i: nat, m: nat, q: nat, j: nat)
    requires Sound(s, spec, source, target) && Block(spec.groups, n, r, i) && Block(spec.groups, m, q, j)
    requires n != m || r != q || i != j
    ensures var d, e := spec.DescOf(s, n, r, i), spec.DescOf(s, m, q, j);
            Apart(d.dst, d.size, e.dst, e.size)
  {
    hide BlockDesc, PageOf, Lies, PageAddress, Offset, RowsWithin, RowsDisjoint, Distinct, Apart, RefSound;
    PageWritten(s, spec, source, target, n, r, i);
    PageWritten(s, spec, source, target, m, q, j);
    PagesDiffer(s, spec, source, target, n, r, i, m, q, j);
    PagesApart(s.dstTensors, s.dstPer, PageOf(s, spec, n, r, i), PageOf(s, spec, m, q, j));
  }

  /** A block's descriptor stays inside both memories. */
  lemma BlockWithin(s: Sides, spec: Spec, source: nat, target: nat, n: nat, r: nat, i: nat)
    requires Sound(s, spec, source, target) && Block(spec.groups, n, r, i)
    ensures var d := spec.DescOf(s, n, r, i);
            d.src + d.size <= source && d.dst + d.size <= target
  {
    hide SubBlock, GroupBlocks, BlocksOf, Offset, RowsDisjoint;
    var groups, ref := spec.groups, spec.groups[n].refs[r];
    var t, u := s.srcTensors[ref.tensor], s.dstTensors[ref.tensor];
    EntryPlaces(t, groups, s.srcPer, spec.src, n, i);
    EntryPlaces(u, groups, s.dstPer, spec.dst, n, i);
    assert RefSound(s, spec, n, r);
    SubBlockInRow(t.width, s.srcPer, (groups[n].index % s.srcPer + i) % s.srcPer, ref.pageSize);
    SubBlockInRow(u.width, s.dstPer, (groups[n].index % s.dstPer + i) % s.dstPer, ref.pageSize);
  }

  /** A transfer's descriptors write no byte twice and stay inside both memories. */
  lemma TransferDisjoint(s: Sides, spec: Spec, source: nat, target: nat)
    requires Sound(s, spec, source, target)
    ensures Disjoint(spec.Descs(s)) && Within(spec.Descs(s), source, target)
  {
    hide AllDescs, BlockDesc, Matches, CopyOps, RefSound, RowsWithin, RowsDisjoint, Sound;
    assert spec.For(s) by { SoundFits(s, spec, source, target); }
    var descs, groups := spec.Descs(s), spec.groups;
    AllCount(s, groups, spec.src, spec.dst, |groups|);
    forall x | 0 <= x < |descs|
      ensures descs[x].src + descs[x].size <= source && descs[x].dst + descs[x].size <= target
    {
      var n, r, i := SlotDecodes(groups, |groups|, x);
      BlockAt(s, groups, spec.src, spec.dst, |groups|, n, r, i);
      BlockWithin(s, spec, source, target, n, r, i);
    }
    forall x, y | 0 <= x < y < |descs| ensures Apart(descs[x].dst, descs[x].size, descs[y].dst, descs[y].size) {
      var n, r, i := SlotDecodes(groups, |groups|, x);
      var m, q, j := SlotDecodes(groups, |groups|, y);
      BlockAt(s, groups, spec.src, spec.dst, |groups|, n, r, i);
      BlockAt(s, groups, spec.src, spec.dst, |groups|, m, q, j);
      BlocksApart(s, spec, source, target, n, r, i, m, q, j);
    }
  }

  lemma SoundFits(s: Sides, spec: Spec, source: nat, target: nat)
    requires Sound(s, spec, source, target)
    ensures spec.For(s)
  {
  }
}
