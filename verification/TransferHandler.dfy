/** Transfers of one direction: a queue in stream order, descriptor buffers taken from a pool and given back,
    and the staging of transfers whose CPU side the device must not touch.

    The device is `RunOldest`: it copies what the descriptor buffers of the oldest waiting transfer say at
    the time it gets to it, not what they said when the transfer was submitted.
 */
module TransferHandler {
  import opened BlockRoundTrip
  import opened StagedCopy
  import opened TransferDescriptors
  import opened Wrappers

  /** A submitted transfer. A staged one owns a staging buffer; a staged store also keeps the host addresses
      its pages go to once the device is done. */
  datatype Transfer = Transfer(jobId: nat, numBytes: nat, buffers: Buffers, ops: nat, staging: Option<array<int>>,
                               hostDestinations: Option<seq<nat>>) {
    /** The arrays the transfer holds until it is reported. */
    ghost function Held(): set<object> {
      buffers.Arrays() + (if staging.Some? then {staging.value} else {})
    }

    predicate StagedLoad() {
      staging.Some? && hostDestinations.None?
    }

    /** What the device is asked to copy. */
    function Device(descs: seq<Desc>): seq<Desc> {
      if staging.None? then descs else if hostDestinations.Some? then Inward(descs) else Outward(descs)
    }

    ghost predicate Shaped(descs: seq<Desc>) {
      && buffers.Valid() && ops == |descs| && numBytes == Staged(descs, |descs|)
      && (staging.Some? ==> staging.value.Length == numBytes && staging.value !in buffers.Arrays())
      && (hostDestinations.Some? ==> staging.Some? && Destinations(descs, hostDestinations.value))
    }
  }

  /** The destination addresses of some descriptors. */
  predicate Destinations(descs: seq<Desc>, addresses: seq<nat>) {
    |addresses| == |descs| && forall i :: 0 <= i < |descs| ==> addresses[i] == descs[i].dst
  }

  /** Every page stands at its place in the staging buffer. */
  ghost predicate Filled(descs: seq<Desc>, src: seq<int>, staging: seq<int>) {
    forall i :: 0 <= i < |descs| ==> Moved(Inward(descs)[i], src, staging)
  }

  lemma FilledByCopy(descs: seq<Desc>, src: seq<int>, before: seq<int>, staging: seq<int>)
    requires Copied(Inward(descs), src, before, staging)
    ensures Filled(descs, src, staging)
  {
    hide Moved;
  }

  /** Copying on from a filled staging buffer is copying from where it was filled. */
  lemma ThroughStaging(descs: seq<Desc>, src: seq<int>, staging: seq<int>, before: seq<int>, now: seq<int>)
    requires Filled(descs, src, staging) && Copied(Outward(descs), staging, before, now)
    requires Within(descs, |src|, |before|)
    ensures Copied(descs, src, before, now)
  {
    forall i | 0 <= i < |descs| ensures Moved(descs[i], src, now) {
      assert Moved(Inward(descs)[i], src, staging) && Moved(Outward(descs)[i], staging, now);
    }
    forall a | 0 <= a < |now| && !Targeted(descs, a) ensures now[a] == before[a] {
      OutwardTargets(descs, a);
    }
  }

  /** The device has yet to run: the buffers hold this transfer's own descriptors. */
  ghost predicate Ready(t: Transfer, descs: seq<Desc>, taken: seq<int>)
    reads t.Held()
  {
    && t.Shaped(descs) && t.buffers.Begin(t.Device(descs))
    && (t.StagedLoad() ==> Filled(descs, taken, t.staging.value[..]))
  }

  /** The device has run: a staged store's pages wait in its staging buffer. */
  ghost predicate Done(t: Transfer, descs: seq<Desc>, taken: seq<int>)
    reads t.Held()
  {
    && t.Shaped(descs)
    && (t.hostDestinations.Some? ==> t.buffers.Begin(t.Device(descs)) && Filled(descs, taken, t.staging.value[..]))
  }

  /** Nothing is held twice: not by two transfers, not by a transfer and the pool, not twice in the pool. */
  ghost predicate Unshared(ts: seq<Transfer>, pool: seq<Buffers>, memories: set<object>) {
    && (forall i, j :: 0 <= i < j < |ts| ==> ts[i].Held() !! ts[j].Held())
    && (forall p, q :: 0 <= p < q < |pool| ==> pool[p].Arrays() !! pool[q].Arrays())
    && (forall i, p :: 0 <= i < |ts| && 0 <= p < |pool| ==> ts[i].Held() !! pool[p].Arrays())
    && (forall i :: 0 <= i < |ts| ==> ts[i].Held() !! memories)
    && (forall p :: 0 <= p < |pool| ==> pool[p].Valid() && pool[p].Arrays() !! memories)
  }

  /** Nobody holds any of these. */
  ghost predicate Spare(held: set<object>, ts: seq<Transfer>, pool: seq<Buffers>, memories: set<object>) {
    && (forall i :: 0 <= i < |ts| ==> ts[i].Held() !! held)
    && (forall p :: 0 <= p < |pool| ==> pool[p].Arrays() !! held)
    && held !! memories
  }

  lemma PoolGives(ts: seq<Transfer>, pool: seq<Buffers>, memories: set<object>)
    requires Unshared(ts, pool, memories) && |pool| > 0
    ensures var rest, b := pool[..|pool| - 1], pool[|pool| - 1];
            Unshared(ts, rest, memories) && Spare(b.Arrays(), ts, rest, memories) && b.Valid()
  {
    hide Transfer.Held, Buffers.Arrays, Buffers.Valid;
  }

  lemma QueueTakes(ts: seq<Transfer>, pool: seq<Buffers>, memories: set<object>, t: Transfer)
    requires Unshared(ts, pool, memories) && Spare(t.Held(), ts, pool, memories)
    ensures Unshared(ts + [t], pool, memories)
  {
    hide Transfer.Held, Buffers.Arrays, Buffers.Valid;
  }

  lemma PoolTakesBack(ts: seq<Transfer>, pool: seq<Buffers>, memories: set<object>)
    requires Unshared(ts, pool, memories) && |ts| > 0 && ts[0].buffers.Valid()
    ensures Unshared(ts[1..], pool + [ts[0].buffers], memories)
  {
    hide Buffers.Arrays, Buffers.Valid, Transfer.Held;
    var b := ts[0].buffers;
    assert b.Arrays() <= ts[0].Held() by {
      HeldBuffers(ts[0]);
    }
  }

  lemma HeldBuffers(t: Transfer)
    ensures t.buffers.Arrays() <= t.Held()
  {
  }

  lemma QueueUnshared(ts: seq<Transfer>, pool: seq<Buffers>, memories: set<object>)
    requires Unshared(ts, pool, memories)
    ensures Unshared(ts, [], memories)
  {
  }

  /** The device's view of a descriptor batch. */
  method ReadDescriptors(b: Buffers, ops: nat, ghost descs: seq<Desc>) returns (batch: seq<Desc>)
    requires b.Begin(descs) && ops == |descs|
    ensures batch == descs
  {
    batch := [];
    for i := 0 to ops
      invariant batch == descs[..i]
    {
      batch := batch + [Desc(b.src[i], b.dst[i], b.sizes[i])];
    }
  }

  /** The host copies that complete a staged store, from the sizes still in its buffers. */
  method HostCopies(sizes: array<nat>, destinations: seq<nat>, ghost descs: seq<Desc>) returns (batch: seq<Desc>)
    requires |descs| <= sizes.Length && Destinations(descs, destinations)
    requires forall i :: 0 <= i < |descs| ==> sizes[i] == descs[i].size
    ensures batch == Outward(descs)
  {
    batch := [];
    var offset := 0;
    for i := 0 to |destinations|
      invariant offset == Staged(descs, i) && |batch| == i
      invariant forall k :: 0 <= k < i ==> batch[k] == Outward(descs)[k]
    {
      batch := batch + [Desc(offset, destinations[i], sizes[i])];
      offset := offset + sizes[i];
    }
  }

  lemma BufferParts(b: Buffers, descs: seq<Desc>)
    requires b.Begin(descs)
    ensures |descs| <= b.sizes.Length && forall i :: 0 <= i < |descs| ==> b.sizes[i] == descs[i].size
  {
  }

  lemma OutwardFits(descs: seq<Desc>, source: nat, target: nat)
    requires Within(descs, source, target) && Disjoint(descs)
    ensures Within(Outward(descs), Staged(descs, |descs|), target) && Disjoint(Outward(descs))
  {
    WithinParts(descs, source, target);
  }

  lemma InwardFits(descs: seq<Desc>, source: nat, target: nat)
    requires Within(descs, source, target)
    ensures Within(Inward(descs), source, Staged(descs, |descs|)) && Disjoint(Inward(descs))
  {
    StagingDisjoint(descs, source);
  }

  /** The arrays the device writes for a transfer, besides the target. */
  ghost function Stage(t: Transfer): set<object> {
    if t.staging.Some? then {t.staging.value} else {}
  }

  lemma StageHeld(t: Transfer)
    ensures Stage(t) <= t.Held()
  {
  }

  /** The descriptors and staging buffer of a transfer, by its kind. */
  lemma ReadyParts(t: Transfer, descs: seq<Desc>, kept: seq<int>)
    requires Ready(t, descs, kept)
    ensures t.buffers.Begin(t.Device(descs)) && t.ops == |t.Device(descs)| && t.Shaped(descs)
    ensures t.staging.None? ==> t.Device(descs) == descs && t.hostDestinations.None?
    ensures t.staging.Some? && t.hostDestinations.Some? ==> t.Device(descs) == Inward(descs)
    ensures t.StagedLoad() ==> t.Device(descs) == Outward(descs) && Filled(descs, kept, t.staging.value[..])
  {
    hide Buffers.Begin, Inward, Outward, Filled, Staged, Destinations;
  }

  /** The device's copies of one transfer. `from` is what was copied: the source as the device found it, or
      for a staged load as it was when the staging buffer was filled. */
  method RunDevice(t: Transfer, source: array<int>, target: array<int>, ghost descs: seq<Desc>, ghost kept: seq<int>)
    returns (ghost from: seq<int>)
    requires Ready(t, descs, kept) && Within(descs, source.Length, target.Length) && Disjoint(descs)
    requires |kept| == source.Length && source != target && t.Held() !! {source, target}
    modifies target, Stage(t)
    ensures Done(t, descs, from)
    ensures source[..] == old(source[..]) && from == if t.StagedLoad() then kept else source[..]
    ensures if t.hostDestinations.Some? then target[..] == old(target[..])
            else Copied(descs, from, old(target[..]), target[..])
  {
    hide Copied, Within, Disjoint, Moved, Buffers.Begin, Inward, Outward, Filled, Staged, Transfer.Device, Ready,
         Destinations;
    ReadyParts(t, descs, kept);
    from := if t.StagedLoad() then kept else source[..];
    var batch := ReadDescriptors(t.buffers, t.ops, t.Device(descs));
    if t.staging.None? {
      CopyBatch(batch, source[..], target);
    } else if t.hostDestinations.Some? {
      InwardFits(descs, source.Length, target.Length);
      ghost var empty := t.staging.value[..];
      CopyBatch(batch, source[..], t.staging.value);
      FilledByCopy(descs, source[..], empty, t.staging.value[..]);
    } else {
      OutwardFits(descs, source.Length, target.Length);
      CopyBatch(batch, t.staging.value[..], target);
      ThroughStaging(descs, kept, t.staging.value[..], old(target[..]), target[..]);
    }
  }

  /** None of a transfer's arrays has changed. */
  twostate predicate Untouched(t: Transfer)
    reads t.Held()
  {
    forall a :: a in t.Held() ==> unchanged(a)
  }

  /** The device's copies of one transfer of a queue leave the others as they were. */
  method RunNth(ts: seq<Transfer>, n: nat, source: array<int>, target: array<int>, ghost issued: seq<seq<Desc>>,
                ghost taken: seq<seq<int>>) returns (ghost from: seq<int>)
    requires n < |ts| == |issued| == |taken| && Unshared(ts, [], {source, target}) && source != target
    requires Ready(ts[n], issued[n], taken[n]) && Within(issued[n], source.Length, target.Length) && Disjoint(issued[n])
    requires |taken[n]| == source.Length
    modifies target, Stage(ts[n])
    ensures Done(ts[n], issued[n], from)
    ensures source[..] == old(source[..]) && from == if ts[n].StagedLoad() then taken[n] else source[..]
    ensures if ts[n].hostDestinations.Some? then target[..] == old(target[..])
            else Copied(issued[n], from, old(target[..]), target[..])
    ensures forall i :: 0 <= i < |ts| && i != n ==> StillAsWas(ts[i], issued[i], taken[i])
  {
    hide Copied, Within, Disjoint, Ready, Done, Transfer.Shaped, Transfer.StagedLoad;
    StageHeld(ts[n]);
    from := RunDevice(ts[n], source, target, issued[n], taken[n]);
    assert forall i :: 0 <= i < |ts| && i != n ==> Untouched(ts[i]);
  }

  /** A transfer that was ready, or done, still is. */
  twostate predicate StillAsWas(t: Transfer, descs: seq<Desc>, taken: seq<int>)
    reads t.Held()
  {
    && (old(Done(t, descs, taken)) ==> Done(t, descs, taken))
    && (old(Ready(t, descs, taken)) ==> Ready(t, descs, taken))
  }

  /** The host copies of the oldest transfer, if it is a staged store. */
  method CompleteHostCopy(ts: seq<Transfer>, source: array<int>, target: array<int>, ghost issued: seq<seq<Desc>>,
                          ghost taken: seq<seq<int>>)
    requires 0 < |ts| == |issued| == |taken| && Unshared(ts, [], {source, target}) && source != target
    requires Done(ts[0], issued[0], taken[0]) && Within(issued[0], source.Length, target.Length) && Disjoint(issued[0])
    requires |taken[0]| == source.Length
    modifies target
    ensures if ts[0].hostDestinations.Some? then Copied(issued[0], taken[0], old(target[..]), target[..])
            else target[..] == old(target[..])
    ensures ts[0].buffers.Valid()
    ensures forall i :: 0 <= i < |ts| ==> StillAsWas(ts[i], issued[i], taken[i])
  {
    hide Copied, Within, Disjoint, Moved, Inward, Outward, Filled, Staged, Destinations, Ready;
    var t := ts[0];
    if t.hostDestinations.Some? {
      BufferParts(t.buffers, Inward(issued[0]));
      InwardSizes(issued[0]);
      var batch := HostCopies(t.buffers.sizes, t.hostDestinations.value, issued[0]);
      OutwardFits(issued[0], source.Length, target.Length);
      CopyBatch(batch, t.staging.value[..], target);
      ThroughStaging(issued[0], taken[0], t.staging.value[..], old(target[..]), target[..]);
    }
    assert forall i :: 0 <= i < |ts| ==> Untouched(ts[i]);
  }

  lemma InwardSizes(descs: seq<Desc>)
    ensures forall i :: 0 <= i < |descs| ==> Inward(descs)[i].size == descs[i].size
  {
  }

  /** One side's addresses replaced by places in a staging buffer. */
  method Redirect(addresses: array<nat>, sizes: array<nat>, ops: nat, ghost descs: seq<Desc>) returns (total: nat)
    requires addresses != sizes && ops == |descs| <= addresses.Length && ops <= sizes.Length
    requires forall i :: 0 <= i < ops ==> sizes[i] == descs[i].size
    modifies addresses
    ensures total == Staged(descs, ops) && forall i :: 0 <= i < ops ==> addresses[i] == Staged(descs, i)
  {
    total := 0;
    for i := 0 to ops
      invariant total == Staged(descs, i) && forall k :: 0 <= k < i ==> addresses[k] == Staged(descs, k)
    {
      addresses[i] := total;
      total := total + sizes[i];
    }
  }

  /** A staged store: the device writes into the staging buffer, the host addresses are kept. */
  method StageStore(b: Buffers, ops: nat, ghost descs: seq<Desc>) returns (destinations: seq<nat>)
    requires b.Valid() && b.Begin(descs) && ops == |descs|
    modifies b.dst
    ensures b.Begin(Inward(descs)) && Destinations(descs, destinations)
  {
    destinations := b.dst[..ops];
    var total := Redirect(b.dst, b.sizes, ops, descs);
  }

  /** A staged load: the host fills the staging buffer now, the device reads from it. */
  method StageLoad(b: Buffers, ops: nat, source: array<int>, bytes: nat, ghost descs: seq<Desc>, ghost target: nat)
    returns (staging: array<int>)
    requires b.Valid() && b.Begin(descs) && ops == |descs| && bytes == Staged(descs, ops)
    requires Within(descs, source.Length, target)
    modifies b.src
    ensures b.Begin(Outward(descs)) && fresh(staging) && staging.Length == bytes
    ensures Filled(descs, source[..], staging[..])
  {
    hide Copied, Moved, Within, Filled;
    var batch := HostPages(b, ops, descs);
    staging := new int[bytes];
    ghost var empty := staging[..];
    InwardFits(descs, source.Length, target);
    CopyBatch(batch, source[..], staging);
    FilledByCopy(descs, source[..], empty, staging[..]);
    var total := Redirect(b.src, b.sizes, ops, descs);
  }

  /** The host copies that fill the staging buffer of a load. */
  method HostPages(b: Buffers, ops: nat, ghost descs: seq<Desc>) returns (batch: seq<Desc>)
    requires b.Begin(descs) && ops == |descs|
    ensures batch == Inward(descs)
  {
    batch := [];
    var offset := 0;
    for i := 0 to ops
      invariant offset == Staged(descs, i) && |batch| == i
      invariant forall k :: 0 <= k < i ==> batch[k] == Inward(descs)[k]
    {
      batch := batch + [Desc(b.src[i], offset, b.sizes[i])];
      offset := offset + b.sizes[i];
    }
  }

  /** A transfer made from a set of buffers: filled in, and redirected if it is staged. */
  method Prepare(jobId: nat, sides: Sides, spec: Spec, ops: nat, b: Buffers, gpuToCpu: bool, stage: bool,
                 source: array<int>, target: array<int>) returns (t: Transfer)
    requires spec.For(sides) && Within(spec.Descs(sides), source.Length, target.Length)
    requires b.Valid() && ops == CopyOps(spec.groups, |spec.groups|) <= b.src.Length
    requires b.Arrays() !! {source, target}
    modifies b.src, b.dst, b.sizes
    ensures t.jobId == jobId && t.buffers == b && fresh(t.Held() - b.Arrays())
    ensures t.staging.Some? <==> stage && ops > 0
    ensures t.hostDestinations.Some? <==> stage && ops > 0 && gpuToCpu
    ensures Ready(t, spec.Descs(sides), source[..])
  {
    hide Within, Staged, Inward, Outward, Filled, Destinations, Buffers.Begin, AllDescs, Matches, CopyOps;
    ghost var descs := spec.Descs(sides);
    AllCount(sides, spec.groups, spec.src, spec.dst, |spec.groups|);
    var bytes := FillTransfer(sides, spec.groups, spec.src, spec.dst, b);
    if !stage || ops == 0 {
      t := Transfer(jobId, bytes, b, ops, None, None);
    } else if gpuToCpu {
      var staging := new int[bytes];
      var destinations := StageStore(b, ops, descs);
      t := Transfer(jobId, bytes, b, ops, Some(staging), Some(destinations));
    } else {
      var staging := StageLoad(b, ops, source, bytes, descs, target.Length);
      t := Transfer(jobId, bytes, b, ops, Some(staging), None);
    }
  }

  /** Writing into spare buffers leaves a queue's transfers as they were. */
  method PrepareBeside(ts: seq<Transfer>, jobId: nat, sides: Sides, spec: Spec, ops: nat, b: Buffers, gpuToCpu: bool,
                       stage: bool, source: array<int>, target: array<int>, ghost issued: seq<seq<Desc>>,
                       ghost taken: seq<seq<int>>, ghost pool: seq<Buffers>) returns (t: Transfer)
    requires spec.For(sides) && Within(spec.Descs(sides), source.Length, target.Length)
    requires b.Valid() && ops == CopyOps(spec.groups, |spec.groups|) <= b.src.Length && |ts| == |issued| == |taken|
    requires Spare(b.Arrays(), ts, pool, {source, target})
    modifies b.src, b.dst, b.sizes
    ensures t.jobId == jobId && Spare(t.Held(), ts, pool, {source, target})
    ensures t.staging.Some? <==> stage && ops > 0
    ensures t.hostDestinations.Some? <==> stage && ops > 0 && gpuToCpu
    ensures Ready(t, spec.Descs(sides), source[..])
    ensures forall i :: 0 <= i < |ts| ==> StillAsWas(ts[i], issued[i], taken[i])
  {
    hide Within, Ready, Done, Transfer.Shaped, Matches, CopyOps, AllDescs, Buffers.Valid;
    t := Prepare(jobId, sides, spec, ops, b, gpuToCpu, stage, source, target);
    assert forall i :: 0 <= i < |ts| ==> Untouched(ts[i]);
  }

  lemma SpareMemories(held: set<object>, ts: seq<Transfer>, pool: seq<Buffers>, source: array<int>, target: array<int>)
    requires Spare(held, ts, pool, {source, target})
    ensures source !in held && target !in held
  {
  }

  method PopPool(pool: seq<Buffers>, ghost ts: seq<Transfer>, ghost source: array<int>, ghost target: array<int>)
    returns (given: Option<Buffers>, rest: seq<Buffers>)
    requires Unshared(ts, pool, {source, target})
    ensures rest == if pool == [] then [] else pool[..|pool| - 1]
    ensures given == if pool == [] then None else Some(pool[|pool| - 1])
    ensures Unshared(ts, rest, {source, target})
    ensures given.Some? ==> given.value.Valid() && Spare(given.value.Arrays(), ts, rest, {source, target})
  {
    hide Unshared, Spare, Buffers.Valid, Buffers.Arrays;
    if pool == [] {
      return None, [];
    }
    PoolGives(ts, pool, {source, target});
    return Some(pool[|pool| - 1]), pool[..|pool| - 1];
  }

  method NewBuffers(ops: nat, ghost ts: seq<Transfer>, ghost pool: seq<Buffers>, ghost source: array<int>,
                    ghost target: array<int>) returns (b: Buffers)
    ensures b.Valid() && b.src.Length == ops && fresh(b.Arrays()) && Spare(b.Arrays(), ts, pool, {source, target})
  {
    var src, dst, sizes := new nat[ops], new nat[ops], new nat[ops];
    b := Buffers(src, dst, sizes);
  }

  /** The handler of one direction. */
  class SingleDirectionOffloadingHandler {
    const sides: Sides
    const gpuToCpu: bool
    const stageMmapTransfers: bool
    const source: array<int>
    const target: array<int>
    var transfers: seq<Transfer>
    var ran: nat
    var bufferPool: seq<Buffers>
    ghost var issued: seq<seq<Desc>>
    ghost var taken: seq<seq<int>>

    ghost predicate Valid()
      reads this, set i, a | 0 <= i < |transfers| && a in transfers[i].Held() :: a
    {
      && |issued| == |taken| == |transfers| && ran <= |transfers| && source != target && sides.Valid()
      && Unshared(transfers, bufferPool, {source, target})
      && (forall i :: 0 <= i < |transfers| ==> Fits(issued[i], taken[i]))
      && (forall i :: 0 <= i < ran ==> Done(transfers[i], issued[i], taken[i]))
      && (forall i :: ran <= i < |transfers| ==> Ready(transfers[i], issued[i], taken[i]))
    }

    ghost predicate Fits(descs: seq<Desc>, from: seq<int>) {
      Within(descs, source.Length, target.Length) && Disjoint(descs) && |from| == source.Length
    }

    constructor (sides: Sides, gpuToCpu: bool, stageMmapTransfers: bool, source: array<int>, target: array<int>)
      requires sides.Valid() && source != target
      ensures Valid() && transfers == [] && bufferPool == []
      ensures this.sides == sides && this.gpuToCpu == gpuToCpu && this.stageMmapTransfers == stageMmapTransfers
      ensures this.source == source && this.target == target
    {
      this.sides, this.gpuToCpu, this.stageMmapTransfers := sides, gpuToCpu, stageMmapTransfers;
      this.source, this.target := source, target;
      transfers, ran, bufferPool, issued, taken := [], 0, [], [], [];
    }

    /** The device gets to the oldest waiting transfer: a transfer that ends in the target has its pages
        there afterwards, as they were when they were read; a staged store has not touched the target. */
    method RunOldest()
      requires Valid() && ran < |transfers|
      modifies this`ran, this`taken, target, Stage(transfers[ran])
      ensures Valid() && ran == old(ran) + 1 && |taken| == |old(taken)|
      ensures forall i :: 0 <= i < |taken| && i != old(ran) ==> taken[i] == old(taken)[i]
      ensures var t := transfers[old(ran)];
              taken[old(ran)] == if t.StagedLoad() then old(taken)[old(ran)] else old(source[..])
      ensures var t, descs := transfers[old(ran)], issued[old(ran)];
              if t.hostDestinations.Some? then target[..] == old(target[..])
              else Copied(descs, taken[old(ran)], old(target[..]), target[..])
    {
      hide Copied, Within, Disjoint, Ready, Done, Unshared, Transfer.Shaped, Transfer.StagedLoad;
      QueueUnshared(transfers, bufferPool, {source, target});
      ghost var from := RunNth(transfers, ran, source, target, issued, taken);
      assert forall i :: 0 <= i < |transfers| ==> (this as object) !in transfers[i].Held();
      taken := taken[ran := from];
      ran := ran + 1;
    }

    /** The oldest transfer the device has finished is reported: a staged store's pages reach the target now,
        and its descriptor buffers go back to the pool. */
    method FinishOldest() returns (jobId: nat)
      requires Valid() && ran > 0
      modifies this`transfers, this`ran, this`bufferPool, this`issued, this`taken, target
      ensures Valid() && ran == old(ran) - 1 && jobId == old(transfers)[0].jobId
      ensures transfers == old(transfers)[1..] && issued == old(issued)[1..] && taken == old(taken)[1..]
      ensures bufferPool == old(bufferPool) + [old(transfers)[0].buffers]
      ensures if old(transfers)[0].hostDestinations.Some?
              then Copied(old(issued)[0], old(taken)[0], old(target[..]), target[..]) else target[..] == old(target[..])
    {
      hide Copied, Within, Disjoint, Ready, Done, Unshared, Transfer.Shaped, Transfer.StagedLoad;
      QueueUnshared(transfers, bufferPool, {source, target});
      CompleteHostCopy(transfers, source, target, issued, taken);
      PoolTakesBack(transfers, bufferPool, {source, target});
      assert forall i :: 0 <= i < |transfers| ==> (this as object) !in transfers[i].Held();
      jobId := transfers[0].jobId;
      bufferPool := bufferPool + [transfers[0].buffers];
      transfers, issued, taken := transfers[1..], issued[1..], taken[1..];
      ran := ran - 1;
    }

    /** Descriptor buffers for a transfer: the last set given back, unless it is too small. */
    method TakeBuffers(ops: nat) returns (b: Buffers)
      requires Valid()
      modifies this`bufferPool
      ensures Valid() && b.Valid() && ops <= b.src.Length
      ensures bufferPool == if old(bufferPool) == [] then [] else old(bufferPool)[..|old(bufferPool)| - 1]
      ensures fresh(b.Arrays()) || (old(bufferPool) != [] && b == old(bufferPool)[|old(bufferPool)| - 1])
      ensures Spare(b.Arrays(), transfers, bufferPool, {source, target})
    {
      hide Within, Disjoint, Ready, Done, Transfer.Shaped, Unshared, Spare;
      var given;
      given, bufferPool := PopPool(bufferPool, transfers, source, target);
      if given.Some? && ops <= given.value.src.Length {
        b := given.value;
      } else {
        b := NewBuffers(ops, transfers, bufferPool, source, target);
      }
      assert forall i :: 0 <= i < |transfers| ==> Untouched(transfers[i]);
    }

    /** A prepared transfer joins the queue. */
    method Enqueue(t: Transfer, ghost descs: seq<Desc>)
      requires Valid() && Ready(t, descs, source[..]) && Within(descs, source.Length, target.Length) && Disjoint(descs)
      requires Spare(t.Held(), transfers, bufferPool, {source, target})
      modifies this`transfers, this`issued, this`taken
      ensures Valid() && transfers == old(transfers) + [t] && issued == old(issued) + [descs]
      ensures taken == old(taken) + [source[..]]
    {
      hide Within, Disjoint, Ready, Done, Unshared, Spare, Transfer.Shaped;
      QueueTakes(transfers, bufferPool, {source, target}, t);
      assert forall i :: 0 <= i < |transfers| ==> (this as object) !in transfers[i].Held();
      assert (this as object) !in t.Held();
      transfers, issued, taken := transfers + [t], issued + [descs], taken + [source[..]];
    }

    /** Buffers are filled in for a transfer beside the queued ones. */
    method PrepareNext(jobId: nat, spec: Spec, ops: nat, b: Buffers) returns (t: Transfer)
      requires Valid() && spec.For(sides) && Within(spec.Descs(sides), source.Length, target.Length)
      requires b.Valid() && ops == CopyOps(spec.groups, |spec.groups|) <= b.src.Length
      requires Spare(b.Arrays(), transfers, bufferPool, {source, target})
      modifies b.src, b.dst, b.sizes
      ensures Valid() && t.jobId == jobId && Spare(t.Held(), transfers, bufferPool, {source, target})
      ensures t.staging.Some? <==> stageMmapTransfers && ops > 0
      ensures t.hostDestinations.Some? <==> stageMmapTransfers && ops > 0 && gpuToCpu
      ensures Ready(t, spec.Descs(sides), source[..]) && source[..] == old(source[..])
    {
      hide Within, Disjoint, Ready, Done, Unshared, Spare, Matches, CopyOps, AllDescs, Transfer.Shaped;
      SpareMemories(b.Arrays(), transfers, bufferPool, source, target);
      t := PrepareBeside(transfers, jobId, sides, spec, ops, b, gpuToCpu, stageMmapTransfers, source, target, issued,
                         taken, bufferPool);
    }

    /** A transfer is submitted. The buffers it is given are nobody's, so what the transfers before it asked
        for still stands in theirs. */
    method TransferAsync(jobId: nat, spec: Spec) returns (ok: bool)
      requires Valid() && Sound(sides, spec, source.Length, target.Length)
      modifies this`transfers, this`bufferPool, this`issued, this`taken,
               if bufferPool == [] then {} else bufferPool[|bufferPool| - 1].Arrays()
      ensures ok && Valid() && |transfers| == |old(transfers)| + 1 && transfers[..|old(transfers)|] == old(transfers)
      ensures issued == old(issued) + [spec.Descs(sides)] && taken == old(taken) + [old(source[..])]
      ensures var t := transfers[|old(transfers)|];
              var staged := stageMmapTransfers && CopyOps(spec.groups, |spec.groups|) > 0;
              t.jobId == jobId && (t.staging.Some? <==> staged) && (t.hostDestinations.Some? <==> staged && gpuToCpu)
      ensures bufferPool == if old(bufferPool) == [] then [] else old(bufferPool)[..|old(bufferPool)| - 1]
    {
      hide Within, Disjoint, Ready, Done, Unshared, Sound, Spare, Matches, CopyOps, AllDescs, Transfer.Shaped,
          Buffers.Valid;
      SoundFits(sides, spec, source.Length, target.Length);
      TransferDisjoint(sides, spec, source.Length, target.Length);
      var ops := CountOps(spec.groups);
      assert forall i :: 0 <= i < |transfers| ==> Untouched(transfers[i]);
      var b := TakeBuffers(ops);
      var t := PrepareNext(jobId, spec, ops, b);
      Enqueue(t, spec.Descs(sides));
      ok := true;
    }

    /** Every transfer the device has finished, oldest first. */
    method GetFinished() returns (results: seq<nat>, ghost memories: seq<seq<int>>)
      requires Valid()
      modifies this`transfers, this`ran, this`bufferPool, this`issued, this`taken, target
      ensures Valid() && ran == 0 && |results| == old(ran)
      ensures transfers == old(transfers)[old(ran)..] && issued == old(issued)[old(ran)..]
      ensures forall i :: 0 <= i < |results| ==> results[i] == old(transfers)[i].jobId
      ensures |bufferPool| == |old(bufferPool)| + old(ran)
      ensures forall i :: 0 <= i < old(ran) ==> bufferPool[|old(bufferPool)| + i] == old(transfers)[i].buffers
      ensures |memories| == old(ran) + 1 && memories[0] == old(target[..]) && memories[old(ran)] == target[..]
      ensures forall i :: 0 <= i < old(ran) ==>
                Reported(old(transfers)[i], old(issued)[i], old(taken)[i], memories[i], memories[i + 1])
    {
      hide Copied, Within, Disjoint, Ready, Done, Unshared, Transfer.Shaped;
      results, memories := [], [target[..]];
      while ran > 0
        invariant Valid() && |results| + ran == old(ran) <= |old(transfers)| == |old(issued)| == |old(taken)|
        invariant transfers == old(transfers)[|results|..] && issued == old(issued)[|results|..]
        invariant taken == old(taken)[|results|..]
        invariant forall i :: 0 <= i < |results| ==> results[i] == old(transfers)[i].jobId
        invariant |bufferPool| == |old(bufferPool)| + |results|
        invariant forall i :: 0 <= i < |results| ==> bufferPool[|old(bufferPool)| + i] == old(transfers)[i].buffers
        invariant |memories| == |results| + 1 && memories[0] == old(target[..]) && memories[|results|] == target[..]
        invariant forall i :: 0 <= i < |results| ==>
                    Reported(old(transfers)[i], old(issued)[i], old(taken)[i], memories[i], memories[i + 1])
        decreases ran
      {
        var jobId := FinishOldest();
        memories := memories + [target[..]];
        results := results + [jobId];
      }
    }
  }

  /** What reporting a transfer does to the target. */
  ghost predicate Reported(t: Transfer, descs: seq<Desc>, taken: seq<int>, before: seq<int>, now: seq<int>) {
    if t.hostDestinations.Some? then Copied(descs, taken, before, now) else now == before
  }
}
