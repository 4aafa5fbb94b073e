/** The single-program routing kernel as a whole. */
module FastRouting {
  import opened Routing
  import opened RoutingKernels
  import opened TileSchedule

  /** The histogram a routing of `ids` has. */
  function HistOf(ids: seq<int>, experts: nat): (hist: seq<nat>)
    ensures |hist| == experts && forall e :: 0 <= e < experts ==> hist[e] == CountEq(ids, e)
  {
    seq(experts, e requires 0 <= e => CountEq(ids, e))
  }

  /** Enough slots for every block size, and no expert twice in a row. */
  ghost predicate Schedulable(ids: seq<int>, experts: nat, topK: nat, rows: nat, schedules: seq<array<int>>)
  {
    && topK > 0 && |ids| == rows * topK && NoRepeats(ids, topK) && |schedules| == 5
    && forall k :: 0 <= k < 5 ==> Sum(AllBlocks(HistOf(ids, experts), Size(k))) <= schedules[k].Length
  }

  method FastDeepseekRouting(ids: seq<int>, weights: seq<real>, experts: nat, topK: nat, rows: nat, width: nat,
                             combine: array<int>, dispatch: array<int>, gate: array<real>, hist: array<nat>,
                             sliceOffs: array<nat>, blockOffs: seq<array<nat>>, schedules: seq<array<int>>)
    requires combine != dispatch && combine.Length == dispatch.Length == gate.Length == |ids| == |weights|
    requires Fits(ids, experts, width, SENTINEL)
    requires hist.Length == experts && sliceOffs.Length == experts + 1 && hist != sliceOffs
    requires Schedulable(ids, experts, topK, rows, schedules) && |blockOffs| == 5
    requires forall k :: 0 <= k < 5 ==> blockOffs[k].Length == experts + 1
    requires forall i, j :: 0 <= i < j < 5 ==> schedules[i] != schedules[j] && blockOffs[i] != blockOffs[j]
    requires forall k :: 0 <= k < 5 ==> schedules[k] != combine && schedules[k] != dispatch
    requires forall k :: 0 <= k < 5 ==> blockOffs[k] != hist && blockOffs[k] != sliceOffs
    modifies combine, dispatch, gate, hist, sliceOffs
    modifies set k | 0 <= k < 5 :: schedules[k]
    modifies set k | 0 <= k < 5 :: blockOffs[k]
    ensures Routed(ids, experts, dispatch[..], combine[..])
    ensures forall p :: 0 <= p < |ids| ==> Weighed(weights, combine[p], gate[p])
    ensures hist[..] == HistOf(ids, experts)
    ensures forall e :: 0 <= e <= experts ==> sliceOffs[e] == CountLess(ids, e)
    ensures forall k :: 0 <= k < 5 ==> Scheduled(HistOf(ids, experts), Size(k), schedules[k][..])
    ensures forall k, e :: 0 <= k < 5 && 0 <= e <= experts ==>
              blockOffs[k][e] == Start(AllBlocks(HistOf(ids, experts), Size(k)), e)
  {
    hide Routed, Weighed, Scheduled, Sum, Start, Size, NoRepeats, Fits;
    SortOnce(ids, weights, experts, width, combine, dispatch, gate);
    Histogram(ids, hist);
    assert hist[..] == HistOf(ids, experts);
    StoreStarts(hist[..], sliceOffs, 0);
    forall e | 0 <= e <= experts ensures Start(HistOf(ids, experts), e) == CountLess(ids, e) {
      LessIsStart(ids, HistOf(ids, experts), e);
    }
    forall e | 0 <= e < experts ensures HistOf(ids, experts)[e] <= rows {
      HistBound(ids, topK, rows, e);
    }
    ScheduleTiles(hist[..], rows, blockOffs, schedules);
  }

  /** The slices the schedules refer to are the experts' runs in the sorted order: the places of an
      expert's assignments are the rows of its slice, in order. */
  lemma SliceHoldsPlaces(ids: seq<int>, experts: nat, i: nat)
    requires Active(ids, experts, i)
    ensures var e := ids[i];
            CountLess(ids, e) <= Place(ids, i) < CountLess(ids, e) + HistOf(ids, experts)[e] == CountLess(ids, e + 1)
  {
    EqPrefix(ids, i, ids[i]);
    LessStep(ids, ids[i]);
  }
}
