/** Copies of KV blocks between GPU and CPU memory: the byte pointers of a transfer's descriptors, the
    copies themselves, and the copies through a staging buffer.

    A memory is a sequence of bytes addressed by pointers into it.
 */
module StagedCopy {
  import opened Division

  /** One descriptor: `size` bytes from one memory to the other. */
  datatype Desc = Desc(src: nat, dst: nat, size: nat)

  /** A cache tensor: `rows` blocks, `stride` bytes apart. */
  datatype Tensor = Tensor(base: nat, stride: nat, width: nat, rows: nat)

  /** Where the k-th sub-block of a list of blocks lies, each holding `perChunk` of them. */
  function SubBlock(t: Tensor, blocks: seq<nat>, perChunk: nat, k: nat): nat
    requires perChunk > 0
  {
    if k / perChunk < |blocks|
    then t.base + blocks[k / perChunk] * t.stride + k % perChunk * (t.width / perChunk)
    else 0
  }

  lemma SubBlockOf(t: Tensor, blocks: seq<nat>, perChunk: nat, b: nat, j: nat)
    requires b < |blocks| && j < perChunk
    ensures SubBlock(t, blocks, perChunk, b * perChunk + j) == t.base + blocks[b] * t.stride + j * (t.width / perChunk)
  {
    DivUnique(b * perChunk + j, perChunk, b, j);
  }

  /** `flat` lists the sub-blocks from the first on. */
  ghost predicate Lists(t: Tensor, blocks: seq<nat>, perChunk: nat, flat: seq<nat>)
    requires perChunk > 0
  {
    forall k: nat :: k < |flat| ==> flat[k] == SubBlock(t, blocks, perChunk, k)
  }

  lemma ListsNext(t: Tensor, blocks: seq<nat>, perChunk: nat, flat: seq<nat>, b: nat, j: nat)
    requires b < |blocks| && j < perChunk && Lists(t, blocks, perChunk, flat) && |flat| == b * perChunk + j
    ensures Lists(t, blocks, perChunk, flat + [t.base + blocks[b] * t.stride + j * (t.width / perChunk)])
  {
    SubBlockOf(t, blocks, perChunk, b, j);
    hide SubBlock;
  }

  /** All sub-block pointers of the blocks, block by block. */
  method AllPointers(t: Tensor, blocks: seq<nat>, perChunk: nat) returns (flat: seq<nat>)
    requires perChunk > 0
    ensures |flat| == |blocks| * perChunk && Lists(t, blocks, perChunk, flat)
  {
    hide Lists;
    var pageSize := t.width / perChunk;
    flat := [];
    ListsNothing(t, blocks, perChunk);
    for b := 0 to |blocks|
      invariant |flat| == b * perChunk && Lists(t, blocks, perChunk, flat)
    {
      for j := 0 to perChunk
        invariant |flat| == b * perChunk + j && Lists(t, blocks, perChunk, flat)
      {
        ListsNext(t, blocks, perChunk, flat, b, j);
        flat := flat + [t.base + blocks[b] * t.stride + j * pageSize];
      }
      assert (b + 1) * perChunk == b * perChunk + perChunk;
    }
  }

  lemma ListsNothing(t: Tensor, blocks: seq<nat>, perChunk: nat)
    requires perChunk > 0
    ensures Lists(t, blocks, perChunk, [])
  {
  }

  /** A stretch of a pointer array holds the sub-blocks from `skip` on; the rest is as before. */
  ghost predicate Pointed(t: Tensor, blocks: seq<nat>, perChunk: nat, skip: nat, before: seq<nat>, now: seq<nat>,
                          lo: nat, n: nat)
    requires perChunk > 0
  {
    && |now| == |before|
    && forall x: nat :: x < |now| ==>
         now[x] == if lo <= x < lo + n then SubBlock(t, blocks, perChunk, skip + (x - lo)) else before[x]
  }

  lemma PointedNone(t: Tensor, blocks: seq<nat>, perChunk: nat, skip: nat, now: seq<nat>, lo: nat)
    requires perChunk > 0
    ensures Pointed(t, blocks, perChunk, skip, now, now, lo, 0)
  {
  }

  lemma PointedNext(t: Tensor, blocks: seq<nat>, perChunk: nat, skip: nat, before: seq<nat>, now: seq<nat>, lo: nat,
                    n: nat)
    requires perChunk > 0 && lo + n < |now| && Pointed(t, blocks, perChunk, skip, before, now, lo, n)
    ensures Pointed(t, blocks, perChunk, skip, before, now[lo + n := SubBlock(t, blocks, perChunk, skip + n)], lo,
                    n + 1)
  {
    hide SubBlock;
  }

  /** Fill a stretch of a pointer array: sub-block `skip` + i at place i. */
  method ComputeSubBlockPtrs(t: Tensor, blocks: seq<nat>, perChunk: nat, skip: nat, output: array<nat>, lo: nat, n: nat)
    requires perChunk > 0 && skip < perChunk && skip + n <= |blocks| * perChunk && lo + n <= output.Length
    modifies output
    ensures Pointed(t, blocks, perChunk, skip, old(output[..]), output[..], lo, n)
  {
    hide SubBlock, Pointed;
    PointedNone(t, blocks, perChunk, skip, output[..], lo);
    if perChunk == 1 {
      for i := 0 to n
        invariant Pointed(t, blocks, perChunk, skip, old(output[..]), output[..], lo, i)
      {
        OneEach(t, blocks, i);
        PointedNext(t, blocks, perChunk, skip, old(output[..]), output[..], lo, i);
        output[lo + i] := t.base + blocks[i] * t.stride;
      }
    } else {
      var flat := AllPointers(t, blocks, perChunk);
      for i := 0 to n
        invariant Pointed(t, blocks, perChunk, skip, old(output[..]), output[..], lo, i)
      {
        PointedNext(t, blocks, perChunk, skip, old(output[..]), output[..], lo, i);
        output[lo + i] := flat[skip + i];
      }
    }
  }

  lemma OneEach(t: Tensor, blocks: seq<nat>, i: nat)
    requires i < |blocks|
    ensures SubBlock(t, blocks, 1, i) == t.base + blocks[i] * t.stride
  {
    DivUnique(i, 1, i, 0);
  }

  predicate Apart(a: nat, n: nat, b: nat, m: nat) {
    a + n <= b || b + m <= a
  }

  /** No two descriptors write the same byte. */
  predicate Disjoint(descs: seq<Desc>) {
    forall i, j :: 0 <= i < j < |descs| ==> Apart(descs[i].dst, descs[i].size, descs[j].dst, descs[j].size)
  }

  predicate Within(descs: seq<Desc>, src: nat, dst: nat) {
    forall i :: 0 <= i < |descs| ==> descs[i].src + descs[i].size <= src && descs[i].dst + descs[i].size <= dst
  }

  /** A byte some descriptor writes. */
  predicate Targeted(descs: seq<Desc>, a: nat) {
    exists i :: 0 <= i < |descs| && descs[i].dst <= a < descs[i].dst + descs[i].size
  }

  /** Every descriptor's bytes have been copied, and no other byte has changed. */
  ghost predicate Copied(descs: seq<Desc>, src: seq<int>, before: seq<int>, now: seq<int>) {
    && Within(descs, |src|, |before|) && |now| == |before|
    && (forall i :: 0 <= i < |descs| ==> Moved(descs[i], src, now))
    && (forall a :: 0 <= a < |now| && !Targeted(descs, a) ==> now[a] == before[a])
  }

  ghost predicate Moved(d: Desc, src: seq<int>, now: seq<int>) {
    && d.src + d.size <= |src| && d.dst + d.size <= |now|
    && now[d.dst..d.dst + d.size] == src[d.src..d.src + d.size]
  }

  /** One descriptor's copy. */
  method CopyPage(d: Desc, src: seq<int>, dst: array<int>)
    requires d.src + d.size <= |src| && d.dst + d.size <= dst.Length
    modifies dst
    ensures Moved(d, src, dst[..])
    ensures forall a :: 0 <= a < dst.Length && !(d.dst <= a < d.dst + d.size) ==> dst[a] == old(dst[a])
  {
    for k := 0 to d.size
      invariant dst[d.dst..d.dst + k] == src[d.src..d.src + k]
      invariant forall a :: 0 <= a < dst.Length && !(d.dst <= a < d.dst + d.size) ==> dst[a] == old(dst[a])
    {
      ghost var before := dst[..];
      dst[d.dst + k] := src[d.src + k];
      assert dst[d.dst..d.dst + k] == before[d.dst..d.dst + k];
      assert dst[d.dst..d.dst + k + 1] == dst[d.dst..d.dst + k] + [dst[d.dst + k]];
      assert src[d.src..d.src + k + 1] == src[d.src..d.src + k] + [src[d.src + k]];
    }
    assert dst[..][d.dst..d.dst + d.size] == dst[d.dst..d.dst + d.size];
  }

  lemma CopiedNone(src: seq<int>, mem: seq<int>)
    ensures Copied([], src, mem, mem)
  {
  }

  lemma CopiedNext(descs: seq<Desc>, d: Desc, src: seq<int>, before: seq<int>, mid: seq<int>, now: seq<int>)
    requires Copied(descs, src, before, mid) && Disjoint(descs + [d]) && |now| == |mid|
    requires Moved(d, src, now)
    requires forall a :: 0 <= a < |now| && !(d.dst <= a < d.dst + d.size) ==> now[a] == mid[a]
    ensures Copied(descs + [d], src, before, now)
  {
    var all := descs + [d];
    forall i | 0 <= i < |all| ensures Moved(all[i], src, now) {
      if i < |descs| {
        var e := descs[i];
        assert Moved(e, src, mid) && all[i] == e && all[|descs|] == d;
        assert Apart(e.dst, e.size, d.dst, d.size);
        StillMoved(e, src, mid, now);
      }
    }
    forall a | 0 <= a < |now| && !Targeted(all, a) ensures now[a] == before[a] {
      assert !(all[|descs|].dst <= a < all[|descs|].dst + all[|descs|].size);
      assert forall i :: 0 <= i < |descs| ==> all[i] == descs[i];
    }
  }

  lemma StillMoved(e: Desc, src: seq<int>, mid: seq<int>, now: seq<int>)
    requires Moved(e, src, mid) && |now| == |mid|
    requires forall a :: e.dst <= a < e.dst + e.size ==> now[a] == mid[a]
    ensures Moved(e, src, now)
  {
    assert now[e.dst..e.dst + e.size] == mid[e.dst..e.dst + e.size];
  }

  /** The copies of a batch, in stream order. */
  method CopyBatch(descs: seq<Desc>, src: seq<int>, dst: array<int>)
    requires Within(descs, |src|, dst.Length) && Disjoint(descs)
    modifies dst
    ensures Copied(descs, src, old(dst[..]), dst[..])
  {
    hide Copied, Moved;
    CopiedNone(src, dst[..]);
    assert descs[..0] == [];
    for i := 0 to |descs|
      invariant Copied(descs[..i], src, old(dst[..]), dst[..])
    {
      ghost var mid := dst[..];
      CopyPage(descs[i], src, dst);
      assert descs[..i + 1] == descs[..i] + [descs[i]];
      CopiedNext(descs[..i], descs[i], src, old(dst[..]), mid, dst[..]);
    }
    assert descs[..|descs|] == descs;
  }

  /** Where each page lies in the staging buffer: one behind the other. */
  function Staged(descs: seq<Desc>, i: nat): nat
    requires i <= |descs|
  {
    if i == 0 then 0 else Staged(descs, i - 1) + descs[i - 1].size
  }

  lemma {:induction false} StagedMonotone(descs: seq<Desc>, i: nat, j: nat)
    requires i <= j <= |descs|
    ensures Staged(descs, i) <= Staged(descs, j)
    decreases j - i
  {
    if i < j {
      StagedMonotone(descs, i, j - 1);
    }
  }

  /** Into the staging buffer, and out of it. */
  function Inward(descs: seq<Desc>): (staged: seq<Desc>)
    ensures |staged| == |descs|
  {
    seq(|descs|, i requires 0 <= i < |descs| => Desc(descs[i].src, Staged(descs, i), descs[i].size))
  }

  function Outward(descs: seq<Desc>): (staged: seq<Desc>)
    ensures |staged| == |descs|
  {
    seq(|descs|, i requires 0 <= i < |descs| => Desc(Staged(descs, i), descs[i].dst, descs[i].size))
  }

  /** The staging regions do not overlap and fill the buffer. */
  lemma StagingDisjoint(descs: seq<Desc>, src: nat)
    requires forall i :: 0 <= i < |descs| ==> descs[i].src + descs[i].size <= src
    ensures Disjoint(Inward(descs)) && Within(Inward(descs), src, Staged(descs, |descs|))
  {
    forall i, j | 0 <= i < j < |descs|
      ensures Apart(Staged(descs, i), descs[i].size, Staged(descs, j), descs[j].size)
    {
      StagedMonotone(descs, i + 1, j);
    }
    forall i | 0 <= i < |descs| ensures Staged(descs, i) + descs[i].size <= Staged(descs, |descs|) {
      StagedMonotone(descs, i + 1, |descs|);
    }
  }

  /** Going through the staging buffer copies what a direct copy copies. */
  lemma StagedIsDirect(descs: seq<Desc>, src: seq<int>, staging0: seq<int>, staging: seq<int>, before: seq<int>,
                       now: seq<int>)
    requires Copied(Inward(descs), src, staging0, staging) && Copied(Outward(descs), staging, before, now)
    ensures Copied(descs, src, before, now)
  {
    forall i | 0 <= i < |descs| ensures Moved(descs[i], src, now) {
      assert Moved(Inward(descs)[i], src, staging) && Moved(Outward(descs)[i], staging, now);
    }
    forall a | 0 <= a < |now| && !Targeted(descs, a) ensures now[a] == before[a] {
      OutwardTargets(descs, a);
    }
  }

  lemma OutwardTargets(descs: seq<Desc>, a: nat)
    ensures Targeted(Outward(descs), a) <==> Targeted(descs, a)
  {
    var outward := Outward(descs);
    assert forall i :: 0 <= i < |descs| ==> outward[i].dst == descs[i].dst && outward[i].size == descs[i].size;
  }

  lemma WithinParts(descs: seq<Desc>, src: nat, dst: nat)
    requires Within(descs, src, dst) && Disjoint(descs)
    ensures forall i :: 0 <= i < |descs| ==> descs[i].src + descs[i].size <= src
    ensures Within(Outward(descs), Staged(descs, |descs|), dst) && Disjoint(Outward(descs))
  {
    forall i | 0 <= i < |descs| ensures Staged(descs, i) + descs[i].size <= Staged(descs, |descs|) {
      StagedMonotone(descs, i + 1, |descs|);
    }
    forall i, j | 0 <= i < j < |descs|
      ensures Apart(Outward(descs)[i].dst, Outward(descs)[i].size, Outward(descs)[j].dst, Outward(descs)[j].size)
    {
      assert Apart(descs[i].dst, descs[i].size, descs[j].dst, descs[j].size);
    }
  }
}
