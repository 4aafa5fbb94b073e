/** The descriptors of a transfer between GPU and CPU blocks: which bytes each copies, and the loops that
    write them into a set of descriptor buffers.
 */
module TransferDescriptors {
  import opened Division
  import opened StagedCopy
  import opened Wrappers

  /** One tensor a group's blocks have data in, and how much per block. */
  datatype Ref = Ref(tensor: nat, pageSize: nat)

  /** A group of consecutive logical blocks of a request: how many, the first one's index, their data. */
  datatype Group = Group(size: nat, index: nat, refs: seq<Ref>)

  /** The two sides of a transfer: their tensors, and how many GPU blocks a block of theirs holds. */
  datatype Sides = Sides(srcTensors: seq<Tensor>, dstTensors: seq<Tensor>, srcPer: nat, dstPer: nat) {
    predicate Valid() {
      srcPer > 0 && dstPer > 0
    }

    predicate Has(g: Group) {
      forall r :: 0 <= r < |g.refs| ==> g.refs[r].tensor < |srcTensors| && g.refs[r].tensor < |dstTensors|
    }
  }

  /** How many blocks of a side a group touches. */
  function BlocksOf(g: Group, per: nat): nat
    requires per > 0
  {
    if g.size == 0 then 0 else (g.size + g.index % per + per - 1) / per
  }

  /** They are as many as it needs and no more. */
  lemma BlocksSuffice(g: Group, per: nat)
    requires per > 0
    ensures g.size > 0 ==> (BlocksOf(g, per) - 1) * per < g.index % per + g.size <= BlocksOf(g, per) * per
    ensures g.size == 0 ==> BlocksOf(g, per) == 0
  {
    if g.size > 0 {
      var n := g.size + g.index % per;
      assert (n + per - 1) / per * per + per > n + per - 1;
    }
  }

  /** Descriptor i of a reference: the i-th of the group's sub-blocks on either side. */
  function RefDesc(s: Sides, g: Group, ref: Ref, src: seq<nat>, dst: seq<nat>, i: nat): Desc
    requires s.Valid() && ref.tensor < |s.srcTensors| && ref.tensor < |s.dstTensors|
  {
    Desc(SubBlock(s.srcTensors[ref.tensor], src, s.srcPer, g.index % s.srcPer + i),
         SubBlock(s.dstTensors[ref.tensor], dst, s.dstPer, g.index % s.dstPer + i), ref.pageSize)
  }

  function RefDescs(s: Sides, g: Group, ref: Ref, src: seq<nat>, dst: seq<nat>): seq<Desc>
    requires s.Valid() && ref.tensor < |s.srcTensors| && ref.tensor < |s.dstTensors|
  {
    seq(g.size, i requires 0 <= i => RefDesc(s, g, ref, src, dst, i))
  }

  /** A group's descriptors, reference by reference. */
  function GroupDescs(s: Sides, g: Group, src: seq<nat>, dst: seq<nat>, refs: nat): seq<Desc>
    requires s.Valid() && s.Has(g) && refs <= |g.refs|
  {
    if refs == 0 then []
    else GroupDescs(s, g, src, dst, refs - 1) + RefDescs(s, g, g.refs[refs - 1], src, dst)
  }

  function Offset(groups: seq<Group>, per: nat, n: nat): nat
    requires per > 0 && n <= |groups|
  {
    if n == 0 then 0 else Offset(groups, per, n - 1) + BlocksOf(groups[n - 1], per)
  }

  lemma {:induction false} OffsetMonotone(groups: seq<Group>, per: nat, a: nat, b: nat)
    requires per > 0 && a <= b <= |groups|
    ensures Offset(groups, per, a) <= Offset(groups, per, b)
    decreases b - a
  {
    if a < b {
      OffsetMonotone(groups, per, a, b - 1);
    }
  }

  /** The block lists of a transfer cover its groups exactly. */
  predicate Matches(s: Sides, groups: seq<Group>, src: seq<nat>, dst: seq<nat>) {
    && s.Valid() && (forall n :: 0 <= n < |groups| ==> s.Has(groups[n]))
    && Offset(groups, s.srcPer, |groups|) == |src| && Offset(groups, s.dstPer, |groups|) == |dst|
  }

  /** The blocks of one group. */
  function GroupBlocks(groups: seq<Group>, per: nat, blocks: seq<nat>, n: nat): seq<nat>
    requires per > 0 && n < |groups| && Offset(groups, per, |groups|) == |blocks|
  {
    OffsetMonotone(groups, per, n + 1, |groups|);
    blocks[Offset(groups, per, n)..Offset(groups, per, n + 1)]
  }

  /** All descriptors of the first n groups, group by group. */
  function AllDescs(s: Sides, groups: seq<Group>, src: seq<nat>, dst: seq<nat>, n: nat): seq<Desc>
    requires Matches(s, groups, src, dst) && n <= |groups|
  {
    if n == 0 then []
    else AllDescs(s, groups, src, dst, n - 1)
         + GroupDescs(s, groups[n - 1], GroupBlocks(groups, s.srcPer, src, n - 1),
                      GroupBlocks(groups, s.dstPer, dst, n - 1), |groups[n - 1].refs|)
  }

  /** How many copies the first n groups take. */
  function CopyOps(groups: seq<Group>, n: nat): nat
    requires n <= |groups|
  {
    if n == 0 then 0 else CopyOps(groups, n - 1) + groups[n - 1].size * |groups[n - 1].refs|
  }

  lemma {:induction false} GroupCount(s: Sides, g: Group, src: seq<nat>, dst: seq<nat>, refs: nat)
    requires s.Valid() && s.Has(g) && refs <= |g.refs|
    ensures |GroupDescs(s, g, src, dst, refs)| == g.size * refs
  {
    if refs > 0 {
      GroupCount(s, g, src, dst, refs - 1);
      assert g.size * refs == g.size * (refs - 1) + g.size;
    }
  }

  lemma {:induction false} AllCount(s: Sides, groups: seq<Group>, src: seq<nat>, dst: seq<nat>, n: nat)
    requires Matches(s, groups, src, dst) && n <= |groups|
    ensures |AllDescs(s, groups, src, dst, n)| == CopyOps(groups, n)
  {
    if n > 0 {
      AllCount(s, groups, src, dst, n - 1);
      GroupCount(s, groups[n - 1], GroupBlocks(groups, s.srcPer, src, n - 1), GroupBlocks(groups, s.dstPer, dst, n - 1),
                 |groups[n - 1].refs|);
    }
  }

  /** A set of descriptor arrays. */
  datatype Buffers = Buffers(src: array<nat>, dst: array<nat>, sizes: array<nat>) {
    predicate Valid() {
      && src != dst && src != sizes && dst != sizes
      && src.Length == dst.Length == sizes.Length
    }

    ghost function Arrays(): set<object> {
      {src, dst, sizes}
    }

    /** The arrays start with these descriptors. */
    ghost predicate Begin(descs: seq<Desc>)
      reads src, dst, sizes
    {
      && |descs| <= src.Length && |descs| <= dst.Length && |descs| <= sizes.Length
      && forall i :: 0 <= i < |descs| ==> src[i] == descs[i].src && dst[i] == descs[i].dst && sizes[i] == descs[i].size
    }
  }

  lemma BeginMore(b: Buffers, descs: seq<Desc>, more: seq<Desc>)
    requires |descs| + |more| <= b.src.Length && b.Valid() && b.Begin(descs)
    requires forall i: nat :: |descs| <= i < |descs| + |more| ==>
               && b.src[i] == more[i - |descs|].src && b.dst[i] == more[i - |descs|].dst
               && b.sizes[i] == more[i - |descs|].size
    ensures b.Begin(descs + more)
  {
  }

  /** What a filled stretch says, entry by entry. */
  lemma PointedAt(t: Tensor, blocks: seq<nat>, perChunk: nat, skip: nat, before: seq<nat>, now: seq<nat>, lo: nat,
                  n: nat)
    requires perChunk > 0 && Pointed(t, blocks, perChunk, skip, before, now, lo, n) && lo + n <= |now|
    ensures forall x: nat :: lo <= x < lo + n ==> now[x] == SubBlock(t, blocks, perChunk, skip + (x - lo))
    ensures forall x: nat :: x < lo ==> now[x] == before[x]
  {
    hide SubBlock;
  }

  method FillStretch(s: Sides, g: Group, ref: Ref, src: seq<nat>, dst: seq<nat>, b: Buffers, op: nat)
    requires s.Valid() && ref.tensor < |s.srcTensors| && ref.tensor < |s.dstTensors| && g.size > 0
    requires |src| == BlocksOf(g, s.srcPer) && |dst| == BlocksOf(g, s.dstPer)
    requires b.Valid() && op + g.size <= b.src.Length
    modifies b.src, b.dst, b.sizes
    ensures forall x: nat :: x < op ==>
              b.src[x] == old(b.src[x]) && b.dst[x] == old(b.dst[x]) && b.sizes[x] == old(b.sizes[x])
    ensures forall x: nat :: op <= x < op + g.size ==>
              var d := RefDesc(s, g, ref, src, dst, x - op);
              b.src[x] == d.src && b.dst[x] == d.dst && b.sizes[x] == d.size
  {
    hide Pointed, SubBlock;
    BlocksSuffice(g, s.srcPer);
    BlocksSuffice(g, s.dstPer);
    ghost var src0, dst0 := b.src[..], b.dst[..];
    ComputeSubBlockPtrs(s.srcTensors[ref.tensor], src, s.srcPer, g.index % s.srcPer, b.src, op, g.size);
    PointedAt(s.srcTensors[ref.tensor], src, s.srcPer, g.index % s.srcPer, src0, b.src[..], op, g.size);
    ComputeSubBlockPtrs(s.dstTensors[ref.tensor], dst, s.dstPer, g.index % s.dstPer, b.dst, op, g.size);
    PointedAt(s.dstTensors[ref.tensor], dst, s.dstPer, g.index % s.dstPer, dst0, b.dst[..], op, g.size);
    for i := 0 to g.size
      modifies b.sizes
      invariant forall x: nat :: x < op ==> b.sizes[x] == old(b.sizes[x])
      invariant forall x: nat :: op <= x < op + i ==> b.sizes[x] == ref.pageSize
    {
      b.sizes[op + i] := ref.pageSize;
    }
  }

  /** One reference's descriptors: its source pointers, its destination pointers, its page size. */
  method FillRef(s: Sides, g: Group, ref: Ref, src: seq<nat>, dst: seq<nat>, b: Buffers, op: nat,
                 ghost descs: seq<Desc>)
    requires s.Valid() && ref.tensor < |s.srcTensors| && ref.tensor < |s.dstTensors| && g.size > 0
    requires |src| == BlocksOf(g, s.srcPer) && |dst| == BlocksOf(g, s.dstPer)
    requires b.Valid() && op == |descs| && op + g.size <= b.src.Length && b.Begin(descs)
    modifies b.src, b.dst, b.sizes
    ensures b.Begin(descs + RefDescs(s, g, ref, src, dst))
  {
    FillStretch(s, g, ref, src, dst, b, op);
    assert b.Begin(descs);
    BeginMore(b, descs, RefDescs(s, g, ref, src, dst));
  }

  /** The bytes of a transfer are the staging bytes its descriptors need. */
  lemma {:induction false} StagedConcat(a: seq<Desc>, b: seq<Desc>, n: nat)
    requires n <= |b|
    ensures Staged(a + b, |a| + n) == Staged(a, |a|) + Staged(b, n)
  {
    if n > 0 {
      StagedConcat(a, b, n - 1);
    } else {
      StagedPrefix(a, b, |a|);
    }
  }

  lemma {:induction false} StagedPrefix(a: seq<Desc>, b: seq<Desc>, n: nat)
    requires n <= |a|
    ensures Staged(a + b, n) == Staged(a, n)
  {
    if n > 0 {
      StagedPrefix(a, b, n - 1);
    }
  }

  lemma {:induction false} StagedEven(descs: seq<Desc>, size: nat, n: nat)
    requires n <= |descs| && forall i :: 0 <= i < |descs| ==> descs[i].size == size
    ensures Staged(descs, n) == n * size
  {
    if n > 0 {
      StagedEven(descs, size, n - 1);
      assert n * size == (n - 1) * size + size;
    }
  }

  lemma RefBytes(s: Sides, g: Group, ref: Ref, src: seq<nat>, dst: seq<nat>, before: seq<Desc>)
    requires s.Valid() && ref.tensor < |s.srcTensors| && ref.tensor < |s.dstTensors|
    ensures var all := before + RefDescs(s, g, ref, src, dst);
            Staged(all, |all|) == Staged(before, |before|) + g.size * ref.pageSize
  {
    hide SubBlock;
    var more := RefDescs(s, g, ref, src, dst);
    StagedConcat(before, more, |more|);
    StagedEven(more, ref.pageSize, |more|);
  }

  /** What one reference adds to the descriptors. */
  lemma RefAdds(s: Sides, g: Group, src: seq<nat>, dst: seq<nat>, descs: seq<Desc>, r: nat)
    requires s.Valid() && s.Has(g) && r < |g.refs|
    ensures var all, next := descs + GroupDescs(s, g, src, dst, r), descs + GroupDescs(s, g, src, dst, r + 1);
            && all + RefDescs(s, g, g.refs[r], src, dst) == next
            && |all| == |descs| + g.size * r && |next| == |all| + g.size <= |descs| + g.size * |g.refs|
            && Staged(next, |next|) == Staged(all, |all|) + g.size * g.refs[r].pageSize
  {
    hide RefDescs, Staged;
    var all, more := descs + GroupDescs(s, g, src, dst, r), RefDescs(s, g, g.refs[r], src, dst);
    GroupCount(s, g, src, dst, r);
    GroupCount(s, g, src, dst, r + 1);
    MulStep(r, |g.refs|, g.size);
    RefBytes(s, g, g.refs[r], src, dst, all);
    assert all + more == descs + (GroupDescs(s, g, src, dst, r) + more);
  }

  /** A group's references, one after the other. */
  method FillGroup(s: Sides, g: Group, src: seq<nat>, dst: seq<nat>, b: Buffers, op: nat, ghost descs: seq<Desc>)
    returns (end: nat, bytes: nat)
    requires s.Valid() && s.Has(g) && g.size > 0
    requires |src| == BlocksOf(g, s.srcPer) && |dst| == BlocksOf(g, s.dstPer)
    requires b.Valid() && op == |descs| && op + g.size * |g.refs| <= b.src.Length && b.Begin(descs)
    modifies b.src, b.dst, b.sizes
    ensures var all := descs + GroupDescs(s, g, src, dst, |g.refs|);
            b.Begin(all) && end == op + g.size * |g.refs| && bytes == Staged(all, |all|) - Staged(descs, |descs|)
  {
    hide RefDescs, GroupDescs, BlocksOf, Buffers.Begin, Staged;
    end, bytes := op, 0;
    NoRefs(s, g, src, dst, descs);
    for r := 0 to |g.refs|
      invariant end == op + g.size * r == |descs + GroupDescs(s, g, src, dst, r)|
      invariant b.Begin(descs + GroupDescs(s, g, src, dst, r))
      invariant bytes == Staged(descs + GroupDescs(s, g, src, dst, r), end) - Staged(descs, op)
    {
      RefAdds(s, g, src, dst, descs, r);
      FillRef(s, g, g.refs[r], src, dst, b, end, descs + GroupDescs(s, g, src, dst, r));
      end, bytes := end + g.size, bytes + g.size * g.refs[r].pageSize;
    }
    GroupCount(s, g, src, dst, |g.refs|);
  }

  lemma NoRefs(s: Sides, g: Group, src: seq<nat>, dst: seq<nat>, descs: seq<Desc>)
    requires s.Valid() && s.Has(g)
    ensures descs + GroupDescs(s, g, src, dst, 0) == descs
  {
  }

  lemma {:induction false} CopyOpsMonotone(groups: seq<Group>, a: nat, b: nat)
    requires a <= b <= |groups|
    ensures CopyOps(groups, a) <= CopyOps(groups, b)
    decreases b - a
  {
    if a < b {
      CopyOpsMonotone(groups, a, b - 1);
    }
  }

  lemma {:induction false} NoneInEmptyGroup(s: Sides, g: Group, src: seq<nat>, dst: seq<nat>, refs: nat)
    requires s.Valid() && s.Has(g) && refs <= |g.refs| && g.size == 0
    ensures GroupDescs(s, g, src, dst, refs) == []
  {
    GroupCount(s, g, src, dst, refs);
  }

  /** How many copies a transfer takes. */
  method CountOps(groups: seq<Group>) returns (n: nat)
    ensures n == CopyOps(groups, |groups|)
  {
    n := 0;
    for k := 0 to |groups|
      invariant n == CopyOps(groups, k)
    {
      n := n + groups[k].size * |groups[k].refs|;
    }
  }

  lemma EmptyBegins(b: Buffers)
    ensures b.Begin([]) && Staged([], 0) == 0
  {
  }

  /** The stretch of blocks the fill loop hands to a group. */
  lemma GroupStretch(groups: seq<Group>, per: nat, blocks: seq<nat>, n: nat)
    requires per > 0 && n < |groups| && Offset(groups, per, |groups|) == |blocks|
    ensures var lo := Offset(groups, per, n);
            var hi := lo + BlocksOf(groups[n], per);
            && hi <= |blocks| && hi == Offset(groups, per, n + 1)
            && blocks[lo..hi] == GroupBlocks(groups, per, blocks, n)
            && (groups[n].size == 0 ==> hi == lo)
  {
    OffsetMonotone(groups, per, n + 1, |groups|);
  }

  /** What one group adds to the descriptors. */
  lemma GroupAdds(s: Sides, groups: seq<Group>, src: seq<nat>, dst: seq<nat>, n: nat)
    requires Matches(s, groups, src, dst) && n < |groups|
    ensures var g, before := groups[n], AllDescs(s, groups, src, dst, n);
            var more := GroupDescs(s, g, GroupBlocks(groups, s.srcPer, src, n), GroupBlocks(groups, s.dstPer, dst, n),
                                   |g.refs|);
            && |before| == CopyOps(groups, n) && |before + more| == CopyOps(groups, n + 1) <= CopyOps(groups, |groups|)
            && before + more == AllDescs(s, groups, src, dst, n + 1)
            && (g.size == 0 ==> before + more == before)
  {
    hide GroupDescs, Offset, BlocksOf;
    var g := groups[n];
    AllCount(s, groups, src, dst, n);
    AllCount(s, groups, src, dst, n + 1);
    CopyOpsMonotone(groups, n + 1, |groups|);
    if g.size == 0 {
      NoneInEmptyGroup(s, g, GroupBlocks(groups, s.srcPer, src, n), GroupBlocks(groups, s.dstPer, dst, n), |g.refs|);
    }
  }

  /** The descriptors of a whole transfer: every group's blocks start where the previous one's end. */
  method FillTransfer(s: Sides, groups: seq<Group>, src: seq<nat>, dst: seq<nat>, b: Buffers) returns (bytes: nat)
    requires Matches(s, groups, src, dst) && b.Valid() && CopyOps(groups, |groups|) <= b.src.Length
    modifies b.src, b.dst, b.sizes
    ensures var all := AllDescs(s, groups, src, dst, |groups|);
            b.Begin(all) && |all| == CopyOps(groups, |groups|) && bytes == Staged(all, |all|)
  {
    hide Buffers.Begin, GroupDescs, BlocksOf, Staged, AllDescs, GroupBlocks, Offset;
    var srcOffset, dstOffset, op := 0, 0, 0;
    bytes := 0;
    EmptyBegins(b);
    NothingYet(s, groups, src, dst);
    for n := 0 to |groups|
      invariant srcOffset == Offset(groups, s.srcPer, n) && dstOffset == Offset(groups, s.dstPer, n)
      invariant op == CopyOps(groups, n) == |AllDescs(s, groups, src, dst, n)|
      invariant b.Begin(AllDescs(s, groups, src, dst, n)) && bytes == Staged(AllDescs(s, groups, src, dst, n), op)
    {
      var g := groups[n];
      GroupAdds(s, groups, src, dst, n);
      GroupStretch(groups, s.srcPer, src, n);
      GroupStretch(groups, s.dstPer, dst, n);
      if g.size == 0 {
        continue;
      }
      var srcEnd, dstEnd := srcOffset + BlocksOf(g, s.srcPer), dstOffset + BlocksOf(g, s.dstPer);
      var added;
      op, added := FillGroup(s, g, src[srcOffset..srcEnd], dst[dstOffset..dstEnd], b, op,
                             AllDescs(s, groups, src, dst, n));
      srcOffset, dstOffset, bytes := srcEnd, dstEnd, bytes + added;
    }
  }

  lemma NothingYet(s: Sides, groups: seq<Group>, src: seq<nat>, dst: seq<nat>)
    requires Matches(s, groups, src, dst)
    ensures AllDescs(s, groups, src, dst, 0) == [] && Offset(groups, s.srcPer, 0) == 0 == Offset(groups, s.dstPer, 0)
  {
  }
}
