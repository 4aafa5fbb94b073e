# Verified model of the KV-cache offloading, routing, parsing and attention patches

A Dafny model of the parts of this vLLM patch set in which state, interleaving or index arithmetic make
mistakes likely, with proofs of what those parts promise. `dafny verify dfyconfig.toml` checks all of it.

**Filesystem KV tier.** `Flock` gives non-blocking file locks as `flock` grants them, per open file
description. `EvictionGate` is the two-lock gate between stores and eviction: one process's gate as a value
advanced a lock call at a time, and the class that makes the calls; between any two of them other processes
may move. `EvictionProtocol` runs any number of such processes, with crashes and relaunches. `ShardLeases`,
`ShardIndex` and `LeaseProtocol` do the same for the reference-counted shard leases, and `LeaseSafety` says
when a lease protects. `TierManager` drives the gate and the index through store and load jobs, reservations and
the eviction schedule; `DiskReserve` is the space those admissions leave, over runs in which readings of the
free space are used again, and `Sums` the totals of reservations.

**External prefix lookup.** `PrefixLookup` is the scheduler's search for the boundary that all KV groups can
serve. `AsyncLookup` is the protocol between the scheduler and the lookup workers, `LookupTruth` what its results
mean, `LookupProgress` that they come, `LookupManager` the objects that follow it, `LookupRotation` the order of a
flush. `FailOpen` is the deadline and circuit breaker with the scheduler query that drives it.

**Expert routing.** `Routing` defines the stable order, `RoutingKernels` proves the blockwise padded sort and
the single global sort to produce it, `TileSchedule` the schedules, `FastRouting` the whole kernel.

**Tool-call parsing.** `StreamingParser` is the engine over lexed tokens with its speculative hold, `Responses`
what a client is told of a whole response, `HoldTransparency` what the hold may change, `ToolEvents` which slot an
event addresses. `ArgPrefix`,
`ArgStability` and `ArgStream` are the safe prefix of partial arguments and the streaming built on it,
`DeltaCoalescing` the merging of a chunk's deltas.

**Kernels and copies.** `PagedLogits` is the software-pipelined paged loop, `SplitDecode` split attention
decode over exact reals, `IndexerLayout` the tiled key cache, and `StagedCopy`, `TransferDescriptors`,
`BlockRoundTrip` and `TransferHandler` the copies between GPU and CPU memory.

An object whose methods update fields is a class, a kernel or loop a method, and each is proved against a
function or predicate on values; the lemmas then say what those values promise. Where locks are shared with
other processes, or queues with workers, objects are tied to a protocol that other parties take part in: every
method of the gate, of the shard index and of the lookup manager that makes such calls states which of the
protocol's steps it took. The tier manager keeps all its steps of `EvictionProtocol`, guards included, in a ghost
field (`history`), and states for stores and reports the run of `DiskReserve` events they are. So what is proved
of all interleavings holds of the objects. A store in the kernels goes to an array, programs of a grid run in an
arbitrary order.

File systems, clocks, space readings, the I/O pool, what other processes do to the locks and the tier's answers
to lookups are parameters or objects with arbitrary future behaviour. What a lock call is answered is not: it is
what the locks give, and contracts say when a store, a load, a lookup or an eviction must be granted.

Two guarantees turn out to need a proviso, and the proofs give the exact one. A shard lease can be lost when the
reacquire of a lookup hit is refused and ignored (`LeaseProtocol.RefusedReacquireLosesLease`). A step keeps the
accounting exact if and only if it is not the reacquire of a shard that the process counts no more while an
evictor holds its lock (`LeaseSafety.StaysExactOnHostIff`), and a held shard is safe from eviction if and only if
it is still counted (`LeaseSafety.ProtectedIff`).

The disk reserve can be undercut when an admission relies on a cached space reading, for every check interval
above zero (`DiskReserve.StaleReadingOverfills`, `DiskReserve.AlwaysKeepsIff`). A stale reading alone does no harm:
in every reachable state an admission keeps the reserve if and only if the reading is taken afresh, or what stores
that have completed since it was taken have written since is made up for (`DiskReserve.AdmissionKeepsIff`). As long
as none has completed and nobody else has taken space, it is (`DiskReserve.NothingReleased`).

A third is a boundary rather than a fault: recovery of unwrapped tool calls is visible to a client exactly when
such a call completes with a declared name (`HoldTransparency.RecoveryVisibleIff`).

## Model

| member | source | states |
|---|---|---|
| `EvictionProtocol.RunsExclude` | patches/tiering-fs-bounded-lru.py:78-144 | In every state reachable by any interleaving of lock calls of any number of processes, crashes and relaunches included: while a deletion is outstanding anywhere no process has an admitted store, and at most one deletion is outstanding on the host. |
| `EvictionProtocol.RunsDrain` | patches/tiering-fs-bounded-lru.py:78-117 | From any reachable state, throughout any run in which one process keeps ownership of eviction, the number of admitted stores on the host never grows. |
| `EvictionProtocol.OwnedRunDrains` | patches/tiering-fs-bounded-lru.py:100-117 | The same from any state satisfying the invariant, as set inclusion: no store is admitted that was not admitted before. |
| `EvictionProtocol.StoresResume` | patches/tiering-fs-bounded-lru.py:100-117 | A crash cannot leave the cache read-only: once the locks of the dead are reaped and no live process owns eviction, every idle open gate can admit its next store, whatever ran before. |
| `EvictionProtocol.NextKeeps` | patches/tiering-fs-bounded-lru.py:78-162 | The protocol invariant (locks and every process's own belief agree, roles are respected, managers are orderly) survives every transition: a lock call, a crash, the reaping of a descriptor, a launch, a manager step. |
| `EvictionProtocol.GateCallKeeps` | patches/tiering-fs-bounded-lru.py:78-162 | One lock call of one process keeps the invariant for that process and for all others. |
| `EvictionProtocol.ManagerStepKeeps` | patches/tiering-fs-manager.disk-reserve.py:491-546 | Submitting, finishing and collecting deletions, starting and ending stores and shutting down keep the invariant. |
| `EvictionProtocol.OwnedStepAdmitsNone` | patches/tiering-fs-bounded-lru.py:100-117 | A single step taken while some process owns eviction never enlarges the set of admitted stores. |
| `EvictionProtocol.ProcessesFollowManagers` | patches/tiering-fs-bounded-lru.py:78-162 | In every interleaving each live process is where the steps of its own manager since its launch have taken it, one after the other, and none of them was one its manager may not take. |
| `EvictionGate.StepTies` | patches/tiering-fs-bounded-lru.py:71-162 | The non-blocking lock call a gate makes leaves its record (intent owned, writes fenced, store lease held) in agreement with what the kernel holds for its descriptors. |
| `EvictionGate.StepTiesOthers` | patches/tiering-fs-bounded-lru.py:71-162 | A lock call of one process leaves every other process's record in agreement with the kernel. |
| `EvictionGate.SharedEvictionGate.constructor` | patches/tiering-fs-bounded-lru.py:40-68 | A new gate of a process that holds no lock starts with nothing owned, fenced or leased. |
| `EvictionGate.SharedEvictionGate.TryBeginEviction` | patches/tiering-fs-bounded-lru.py:78-86 | Succeeds exactly when it owns already or the intent lock, as the others have left it by then, grants it exclusively; one lock call, none when it already owns; its calls and their outcomes are those the host's locks give. |
| `EvictionGate.SharedEvictionGate.TryFenceWrites` | patches/tiering-fs-bounded-lru.py:88-98 | Succeeds exactly for the owner whose fence is up already or to whom the writes lock, as the others have left it by then, is granted exclusively; one lock call, none when already fenced or not the owner. |
| `EvictionGate.SharedEvictionGate.TryPinStore` | patches/tiering-fs-bounded-lru.py:100-117 | Admits a store exactly when the gate is open and no owner, the intent lock grants the probe at the first call, and the write lease is held or granted at the second, the others having moved before each; the probe is dropped again on every path that took it. |
| `EvictionGate.SharedEvictionGate.ReleaseStore` | patches/tiering-fs-bounded-lru.py:119-125 | Forgets the job; the write lease goes with the last job and not before; its lock calls are a run of the gate's protocol. |
| `EvictionGate.SharedEvictionGate.EvictionActive` | patches/tiering-fs-bounded-lru.py:127-135 | Leaves the gate as it was; answers true exactly for the owner and when the intent lock refuses the shared probe. |
| `EvictionGate.SharedEvictionGate.FinishEviction` | patches/tiering-fs-bounded-lru.py:137-144 | Lifts the write fence before giving up the intent lock; afterwards neither is held; its lock calls are a run of the gate's protocol. |
| `EvictionGate.SharedEvictionGate.Close` | patches/tiering-fs-bounded-lru.py:146-162 | Releases fence, intent and lease in that order and is idempotent; the process holds neither lock afterwards; its lock calls are a run of the gate's protocol. |
| `EvictionGate.SharedEvictionGate.AtRest` | patches/tiering-fs-bounded-lru.py:78-117 | When no other process moves, what the gate is granted is decided by the locks as they are: on an idle host it can own, fence and admit stores. |
| `EvictionGate.PlaysInPlays` | patches/tiering-fs-bounded-lru.py:71-162 | Lock calls made in a world of moving processes, each with the outcome its locks give, are calls the gate may make. |
| `LeaseProtocol.RunsExclude` | patches/tiering-fs-bounded-lru.py:201-225 | In every reachable state of any number of processes, refused locks and crashes included: no process counts a shard more often than it has recorded holders, lock descriptors exist exactly for positive counts, a shard under eviction is leased by no process, and no two processes evict one shard. |
| `LeaseProtocol.HeldShardsAreSafe` | patches/tiering-fs-bounded-lru.py:201-225 | As long as every reacquire of a process was granted, its counts equal its request pins plus pending lookups plus jobs, and a shard with any holder in that process is being evicted by no process. |
| `LeaseProtocol.RefusedReacquireLosesLease` | patches/tiering-fs-bounded-lru.py:309-323 | Without that proviso the guarantee is false: a concrete run in which a refused, ignored reacquire leaves a running load's shard under eviction by another process. |
| `LeaseProtocol.LeaseKeeps` | patches/tiering-fs-bounded-lru.py:201-225 | One lock call of one process keeps the host invariant of locks, descriptors and evictions. |
| `LeaseProtocol.NextKeeps` | patches/tiering-fs-bounded-lru.py:201-225 | The host invariant survives every transition: a lease step, a crash, the reaping of a descriptor, a relaunch. |
| `LeaseProtocol.NextExact` | patches/tiering-fs-bounded-lru.py:274-323 | Exact accounting of one process survives every transition of any process other than its own refused reacquire. |
| `ShardLeases.StepLeaksNothing` | patches/tiering-fs-bounded-lru.py:201-225 | No step, whatever lock is refused, makes a count exceed the recorded holders or leaves a descriptor without a count. |
| `ShardLeases.StaysExactIff` | patches/tiering-fs-bounded-lru.py:309-323 | For one process by itself: from exact accounting, a step leads to exact accounting if and only if it is not a refused reacquire of a pin. |
| `LeaseSafety.StaysExactOnHostIff` | patches/tiering-fs-bounded-lru.py:309-323 | In every reachable state of the host a step keeps a process's accounting exact if and only if it is not the reacquire of a shard which the process counts no more and whose lock an evictor holds. |
| `LeaseSafety.RefusedIff` | patches/tiering-fs-bounded-lru.py:309-323 | A reacquire is refused if and only if the process counts the shard no more and its lock is held exclusively. |
| `LeaseSafety.AnswersAreFlocks` | patches/tiering-fs-bounded-lru.py:201-225 | What the index's lock calls are answered is what `flock` answers: a lease unless an evictor, of another process or its own, has the lock, an eviction unless anybody else has it. |
| `LeaseSafety.ProtectedIff` | patches/tiering-fs-bounded-lru.py:201-225 | In every reachable state a shard is safe from eviction, in every continuation in which only other processes act, crash and are launched, if and only if this process counts it. |
| `LeaseSafety.HeldShardsSafeIff` | patches/tiering-fs-bounded-lru.py:494-519 | All shards a process holds for requests, lookups and jobs are safe in that sense if and only if each of them is still counted; exact accounting makes it so. |
| `ShardLeases.RunLeaksNothing` | patches/tiering-fs-bounded-lru.py:201-225 | No sequence of steps leaks a lease. |
| `ShardLeases.AllReleased` | patches/tiering-fs-bounded-lru.py:216-225 | With no pins, pending lookups or jobs left, nothing is counted and no descriptor is open. |
| `ShardLeases.LateResultsPinNothing` | patches/tiering-fs-bounded-lru.py:301-323 | Once a request is cancelled with its pins released, or closed, no step of any later run pins a shard for it until it is reopened, through at most 99,999 further closures. |
| `ShardLeases.ClosedThenShut` | patches/tiering-fs-bounded-lru.py:439-452 | Closing a request puts it in that state: fenced, nothing pinned, newest of the remembered closures. |
| `ShardLeases.ClosuresBounded` | patches/tiering-fs-bounded-lru.py:448-452 | No run remembers more than 100,000 closures. |
| `ShardLeases.TotalPut` | patches/tiering-fs-bounded-lru.py:216-225 | The recorded holders over all keys of a dictionary change exactly by what one entry gains and loses. |
| `ShardIndex.ShardLeaseIndex.AcquireShared` | patches/tiering-fs-bounded-lru.py:201-214 | Counts one more holder exactly if the shard is counted already or no evictor, its own or another process's, has its lock at that moment; otherwise nothing changes; only the first holder makes a lock call. |
| `ShardIndex.ShardLeaseIndex.ReleaseShared` | patches/tiering-fs-bounded-lru.py:216-225 | Counts one holder less; the last one closes the descriptor. |
| `ShardIndex.ShardLeaseIndex.LookupBegin` | patches/tiering-fs-bounded-lru.py:274-300 | Admitted unless the request is closed or cancelled; pending leases grow by exactly the eligible shards (with repetition); a shard is eligible if it is not under eviction and counted or free of evictors at every moment, and not if it is under eviction, or uncounted and never free of them. |
| `ShardIndex.ShardLeaseIndex.LookupEnd` | patches/tiering-fs-bounded-lru.py:301-325 | Pending leases shrink by exactly the eligible shards; unless the request was closed or cancelled meanwhile, it pins exactly the hits in addition to what it had and they become the newest shards; otherwise every result is a miss and nothing is pinned. No reacquire is refused while no evictor is about. |
| `ShardIndex.ShardLeaseIndex.BeginLookup` | patches/tiering-fs-bounded-lru.py:346-358 | Nothing happens for a closed or cancelled request; otherwise one pending lease is added exactly if the shard is counted or no evictor has its lock. |
| `ShardIndex.ShardLeaseIndex.ReleasePending` | patches/tiering-fs-bounded-lru.py:327-344 | Removes each marked shard once from the request's pending leases, as far as it has it, and releases one count for each removed. |
| `ShardIndex.ShardLeaseIndex.ResolveCachedLookup` | patches/tiering-fs-bounded-lru.py:360-382 | A cached hit is honoured exactly for an open request and a shard that is not under eviction and is pinned, counted, or free of evictors; the request gains that pin and loses one pending lease, the shard becomes the newest; never through an ignored refusal. |
| `ShardIndex.ShardLeaseIndex.OpenRequest` | patches/tiering-fs-bounded-lru.py:402-413 | A new or reused id starts unfenced with no pins and no pending leases, everything older released. |
| `ShardIndex.ShardLeaseIndex.CancelLookup` | patches/tiering-fs-bounded-lru.py:415-425 | Fences the request, drops its pending leases, and with `releasePins` its pins too, so that late results pin nothing. |
| `ShardIndex.ShardLeaseIndex.ReleaseRequestPins` | patches/tiering-fs-bounded-lru.py:427-437 | The request keeps its entry with no pins; every pin is released once. |
| `ShardIndex.ShardLeaseIndex.ReleaseRequest` | patches/tiering-fs-bounded-lru.py:439-452 | The request is gone from pins and pending leases and fenced as closed. |
| `ShardIndex.ShardLeaseIndex.PinJob` | patches/tiering-fs-bounded-lru.py:454-469 | Leases all shards of a job or none: on failure counts and records are as before; it succeeds when every shard is not under eviction and counted or free of evictors throughout, and fails when some shard is under eviction, or uncounted and never free of them. |
| `ShardIndex.ShardLeaseIndex.ReleaseJob` | patches/tiering-fs-bounded-lru.py:471-474 | Exactly the job's shards are released, once each. |
| `ShardIndex.ShardLeaseIndex.BeginOldestEviction` | patches/tiering-fs-bounded-lru.py:494-519 | Takes a shard that nobody in the process leases and that is not under eviction; every older such shard was refused its exclusive lock, and none is taken only if all were refused; a shard that no process holds at any moment is not refused. |
| `ShardIndex.ShardLeaseIndex.HeldIffLeased` | patches/tiering-fs-bounded-lru.py:494-501 | The set of held shards that eviction skips is exactly the shards with a pin, a pending lookup or a job. |
| `ShardIndex.ShardLeaseIndex.IdleIff` | patches/tiering-fs-bounded-lru.py:494-508 | The candidates for eviction are exactly the known shards that nobody in the process leases and that are not under eviction. |
| `ShardIndex.ShardLeaseIndex.FinishEviction` | patches/tiering-fs-bounded-lru.py:521-536 | The shard is no longer under eviction; it is forgotten on success, and as old as its directory after a failure. |
| `ShardIndex.ShardLeaseIndex.Touch` | patches/tiering-fs-bounded-lru.py:384-400 | A touch renews exactly the shards the open request has pinned and that are not under eviction. |
| `ShardIndex.ShardLeaseIndex.RecordStore` | patches/tiering-fs-bounded-lru.py:476-482 | A finished store makes exactly its shards the most recently used. |
| `ShardIndex.ShardLeaseIndex.RecordAccess` | patches/tiering-fs-bounded-lru.py:484-492 | A finished load renews exactly those of its shards that are known and not under eviction. |
| `ShardIndex.EvolvedExact` | patches/tiering-fs-bounded-lru.py:201-225 | Whatever sequence of the index's lock steps without a refused reacquire, exact accounting in gives exact accounting out. |
| `ShardIndex.EvolvedLeaksNothing` | patches/tiering-fs-bounded-lru.py:201-225 | Every method of the index, being such a sequence, leaks no lease. |
| `ShardIndex.LeasedIff` | patches/tiering-fs-bounded-lru.py:494-501 | A shard is protected from eviction if and only if some request pins it, some lookup of it is pending or some job holds it. |
| `TierManager.FileSystemTierManager.GetAvailableBytes` | patches/tiering-fs-manager.disk-reserve.py:444-455 | Returns the remembered reading; that is the disk's own, taken now, when none was remembered or the last one is as old as the check interval, and otherwise the last one unchanged. |
| `TierManager.FileSystemTierManager.HasStoreSpace` | patches/tiering-fs-manager.disk-reserve.py:457-478 | True exactly when the reading, less what unfinished stores have reserved and less the request, still covers the reserve (or no reserve is set, and then nothing is read); the reading is as fresh as the check interval asks. |
| `TierManager.FileSystemTierManager.DrainEvictions` | patches/tiering-fs-manager.disk-reserve.py:480-489 | A finished deletion, and only that, leaves the worker and the eviction set and resets the space reading; its shard is forgotten, or as old as its directory if it could not be deleted; at all times the shards under eviction are those outstanding in the worker, and the worker's single entry implies the fence. |
| `TierManager.FileSystemTierManager.SubmitDeletion` | patches/tiering-fs-manager.disk-reserve.py:520-546 | A deletion is submitted only behind the write fence and only by the owner, of the named tombstone or of a shard that was idle; and it is submitted if the fence is granted and there is a tombstone or an idle shard that no process holds. |
| `TierManager.FileSystemTierManager.MaybeScheduleEviction` | patches/tiering-fs-manager.disk-reserve.py:491-546 | Whatever the branch, it takes steps of the eviction protocol only; while a deletion is outstanding nothing else is submitted and the fence stays. Otherwise the manager owns eviction afterwards exactly if it did or wanted to, below the trigger or with a tombstone, and was granted it, unless no tombstone is left and the target is reached; as owner it submits the first tombstone still there, or with none left an idle shard, whenever the fence is granted and there is one that can be had. |
| `TierManager.FileSystemTierManager.DeletesAlone` | patches/tiering-fs-manager.disk-reserve.py:480-546 | A manager, all of whose calls are steps of the eviction protocol, is the protocol's process of its host; while it has a deletion outstanding no process of the host has an admitted store and no other process deletes. |
| `TierManager.FileSystemTierManager.LeaseStore` | patches/tiering-fs-manager.disk-reserve.py:551-567 | Space, write lease and shard leases together, or none of them: a refused store leaves both dictionaries as before, and space is looked for only behind the write lease. A store is admitted if the gate admits it, the reading covers it and all its shards can be leased throughout, and refused if the gate does not, the reading does not, or some shard cannot be leased. |
| `TierManager.FileSystemTierManager.SubmitStore` | patches/tiering-fs-manager.disk-reserve.py:548-589 | An accepted store either runs, holding its write lease, its shard leases and a reservation of one block per key, or waits to be reported as failed and holds nothing; when the pool raises, nothing of it is recorded or held. In terms of the disk it is a run of reserve events, ending in the store's admission if it runs. |
| `TierManager.FileSystemTierManager.RunStore` | patches/tiering-fs-manager.disk-reserve.py:551-589 | Placing a store is, in terms of the disk, an admission if it runs, an admission withdrawn if the pool raises, and at most a look at the free space otherwise; it runs if gate, reading and shards admit it and the pool takes it, and not if one of them does not. |
| `TierManager.FileSystemTierManager.Housekeep` | patches/tiering-fs-manager.disk-reserve.py:548-550 | Accounting for finished deletions and scheduling the next one is, in terms of the disk, forgetting the reading and looking again, and keeps the fence. |
| `TierManager.FileSystemTierManager.SubmitLoad` | patches/tiering-fs-manager.disk-reserve.py:592-622 | An accepted load either runs, holding its shard leases, or waits to be reported as failed and its keys' cached hits are invalidated; in both cases, and when the pool raises, the request's lookup pins have been released. It runs if all its shards can be leased throughout and the pool takes it, and not if some shard cannot. |
| `TierManager.FileSystemTierManager.Settle` | patches/tiering-fs-manager.disk-reserve.py:635-642 | A finished or withdrawn job loses its record, its reservation, its write lease and its shard leases together, and no other job loses anything; reserved bytes stay the sum over the unfinished stores. |
| `TierManager.FileSystemTierManager.Start` | patches/tiering-fs-manager.disk-reserve.py:581-589 | A recorded job runs or, on the pool's exception, everything recorded for it is undone. |
| `TierManager.FileSystemTierManager.EvictNext` | patches/tiering-fs-manager.disk-reserve.py:513-546 | The owner with nothing outstanding gives up ownership exactly if no tombstone is left and the target is reached; otherwise it submits the first surviving tombstone or, with none left, an idle shard, if the fence is granted and one can be had, and nothing if not. |
| `TierManager.SurvivingIs` | patches/tiering-fs-manager.disk-reserve.py:513-516 | The tombstones left are those from the first on that still exists; all before it are gone. |
| `TierManager.FileSystemTierManager.Collect` | patches/tiering-fs-manager.disk-reserve.py:635-664 | One finished job is settled; a failed load invalidates exactly its keys; a successful job makes a store's shards the newest and renews a load's, and a failed one renews nothing. |
| `TierManager.FileSystemTierManager.CollectAll` | patches/tiering-fs-manager.disk-reserve.py:635-664 | All finished jobs are settled, and exactly the keys of the failed loads among them are invalidated. |
| `TierManager.FileSystemTierManager.GetFinishedJobs` | patches/tiering-fs-manager.disk-reserve.py:625-665 | Reports every refused job as failed and every finished job with the pool's verdict, each for the first and only time, and invalidates exactly the keys of failed loads; afterwards none of the reported jobs holds a write lease, a shard lease or a reservation. In terms of the disk it is a run of reserve events, finished stores completing. |
| `TierManager.ReportedOnce` | patches/tiering-fs-manager.disk-reserve.py:625-666 | Reporting the refused and the finished jobs keeps the partition of the accepted jobs into reported, running and waiting, and repeats none. |
| `Sums.SumPick` | patches/tiering-fs-manager.disk-reserve.py:457-478 | The reserved total does not depend on the order in which reservations are summed. |
| `DiskReserve.AdmissionKeepsIff` | patches/tiering-fs-manager.disk-reserve.py:444-478 | In every reachable state of the disk, readings cached: an admission keeps the reserve, whatever the admitted stores go on to write and complete, if and only if the free space less all that is yet to be written less the store covers it; and that is so if and only if the reading was taken afresh or what stores completed since it have written since is made up for by what others freed, what unfinished stores had written before it, and the slack of the reading. |
| `DiskReserve.KeepsReserveIff` | patches/tiering-fs-manager.disk-reserve.py:457-478 | With the stores already admitted the reserve is safe if and only if all they have yet to write would leave it free. |
| `DiskReserve.AllKeepIff` | patches/tiering-fs-manager.disk-reserve.py:444-478 | Over every run: each admission keeps the reserve if and only if each was in time. |
| `DiskReserve.AlwaysKeepsIff` | patches/tiering-fs-manager.disk-reserve.py:444-455 | The settings with which every admission of every run keeps the reserve are exactly those with a check interval of zero. |
| `DiskReserve.NothingReleased` | patches/tiering-fs-manager.disk-reserve.py:444-478 | A stale reading does no harm as long as no store has completed, and nobody else taken space, since it was taken. |
| `DiskReserve.NextInv` | patches/tiering-fs-manager.disk-reserve.py:444-489 | Every event keeps the account of the reading: it differs from the free space by what unfinished and completed stores have written since and what others have freed. |
| `DiskReserve.ReserveHolds` | patches/tiering-fs-manager.disk-reserve.py:457-478 | After any run in which this tier is the only writer and every admission is in time, the free space covers the reserve or is no less than at the start. |
| `DiskReserve.StaleReadingOverfills` | patches/tiering-fs-manager.disk-reserve.py:444-455 | For every reserve and every check interval above zero a run of two stores, the second admitted on the cached reading after the first has completed, ends below the reserve. |
| `PrefixLookup.MaximalPrefixLookup` | patches/offloading-scheduler.dspark-prefix.py:626-658 | For fixed answers the result is the longest prefix of keys that are all hits; it is undecided exactly when an undecided key comes before the first miss. |
| `PrefixLookup.SlidingWindowLookup` | patches/offloading-scheduler.dspark-prefix.py:660-691 | For fixed answers the result is the greatest end of a run of hits as long as the window, or of a shorter run from the start; undecided only if some key is. |
| `PrefixLookup.GroupTightens` | patches/offloading-scheduler.dspark-prefix.py:769-845 | Cutting the boundary to what a group's search found gives a boundary the group supports, and the greatest one not past the old. |
| `PrefixLookup.FullAttentionDownward` | patches/offloading-scheduler.dspark-prefix.py:769-845 | A full-attention group that supports a boundary supports every smaller one. |
| `PrefixLookup.CeilDivLeast` | patches/offloading-scheduler.dspark-prefix.py:769-845 | The number of chunks a boundary needs is the least whose tokens reach it. |
| `PrefixLookup.SupportsIff` | patches/offloading-scheduler.dspark-prefix.py:769-845 | What the search takes a group to support, slices of its keys, is what it can serve: every chunk with a token to load, of a sliding-window group those within the window before the boundary, is a hit. |
| `PrefixLookup.OffloadingScheduler.AllowedIff` | patches/offloading-scheduler.dspark-prefix.py:728-740 | The limit the search starts from is the greatest boundary allowed, for every prompt length, alignment and choice of groups. |
| `PrefixLookup.OffloadingScheduler.CollidesIff` | patches/offloading-scheduler.dspark-prefix.py:878-904 | The keys compared with the loads in progress are those of exactly the chunks the load needs. |
| `PrefixLookup.OffloadingScheduler.LookupOneGroup` | patches/offloading-scheduler.dspark-prefix.py:786-821 | The hits of one group, full attention or sliding window, are the most it can serve of the chunks asked for. |
| `PrefixLookup.OffloadingScheduler.Tighten` | patches/offloading-scheduler.dspark-prefix.py:769-843 | One turn of the search: the boundary falls to the greatest the group supports, or the group has less than a chunk to give, or it is undecided, or an exempt EAGLE group is left out. |
| `PrefixLookup.OffloadingScheduler.LookupPass` | patches/offloading-scheduler.dspark-prefix.py:757-867 | A round over the groups ends, and leaves to be asked again every group whose support of the new boundary is not yet confirmed; asking again strictly shrinks a potential, so the rounds end for any sequence of answers. |
| `PrefixLookup.OffloadingScheduler.Converge` | patches/offloading-scheduler.dspark-prefix.py:735-869 | The rounds end for any oracle, changing answers included; for fixed answers, in a boundary all groups have confirmed and none exceeds, or giving up rightly. |
| `PrefixLookup.OffloadingScheduler.Lookup` | patches/offloading-scheduler.dspark-prefix.py:714-913 | In terms of tokens and chunks: for fixed answers a nonzero result is exactly the greatest boundary allowed at which every group taking part has each chunk the load needs. Allowed is any within the prompt or, when some group slides, any up to a position before the last prompt token, an aligned one for Mamba. Zero means every such boundary is less than one chunk of some group past the computed tokens, and no answer that the tier is undecided about a chunk of a group taking part with a token to load, or that the greatest load needs a chunk already being loaded; no result needs one. |
| `PrefixLookup.OffloadingScheduler.Resolve` | patches/offloading-scheduler.dspark-prefix.py:735-913 | The same for the search and the check for loads in flight by themselves, with the groups excluded along the way: for fixed answers only those skipped by configuration. |
| `PrefixLookup.OffloadingScheduler.NoneBeingLoaded` | patches/offloading-scheduler.dspark-prefix.py:878-904 | True exactly when no key the load would read, of any group taking part, is already being loaded. |
| `AsyncLookup.RunsStrandNone` | patches/async_lookup.bounded.py:160-256 | In every interleaving of scheduler and workers, a key without a result has its own uncancelled token in the step batch, a queue, a worker's hands or the lane being posted, or an unread published result; and the request-to-keys index is the exact inverse of the requests recorded per key. |
| `AsyncLookup.QuiescentMeansResolved` | patches/async_lookup.bounded.py:226-239 | When nothing is batched, queued, published or in a worker, every known key has its result. |
| `AsyncLookup.StepKeeps` | patches/async_lookup.bounded.py:160-263 | Every operation on shared data, of scheduler or worker, keeps that invariant. |
| `AsyncLookup.WorkerPassesOn` | patches/async_lookup.bounded.py:297-335 | A worker that holds a live key keeps it through every step of its loop or publishes an answer for it. |
| `AsyncLookup.PostCarries` | patches/async_lookup.bounded.py:188-224 | Posting loses no key except those of a chunk the full queue refused. |
| `AsyncLookup.DroppedEntry` | patches/async_lookup.bounded.py:205-222 | Dropping a chunk keeps keys, requests and tokens and leaves no live key of the chunk without a result. |
| `AsyncLookup.AppliedEntry` | patches/async_lookup.bounded.py:226-239 | Applying answers keeps keys, requests and tokens and leaves no answered key without a result. |
| `LookupTruth.ResultsTrue` | patches/async_lookup.bounded.py:160-335 | Over every interleaving in which the tier gives one answer per key: a hit is reported only of a key it has, a miss only of one it has not, unless since the key became known its lookup was refused by the step's limit or a full queue, or it was invalidated. |
| `LookupTruth.StepTruthful` | patches/async_lookup.bounded.py:160-335 | Every operation on shared data keeps that, and that workers pair keys with their own answers, in their hands and published. |
| `LookupTruth.AppliedLast` | patches/async_lookup.bounded.py:226-239 | Applying answers gives each known key the last of them about it and leaves all others as they were. |
| `LookupTruth.DroppedResult` | patches/async_lookup.bounded.py:205-222 | A chunk that found the queue full makes exactly its keys with a live token misses. |
| `LookupProgress.AnswersCome` | patches/async_lookup.bounded.py:297-335 | In every reachable state, left to themselves the workers come to rest after at most as many operations as there is work; then all are idle, the queue is empty, and every known key that was in neither the step's batch nor a flush has its result or a published answer. |
| `LookupProgress.WorkersFinish` | patches/async_lookup.bounded.py:297-335 | However the workers interleave, every operation takes some of the work away and keeps the invariant. |
| `LookupRotation.FlushPostsAll` | patches/async_lookup.bounded.py:188-224 | Grouping and rotation post, per request, exactly the keys of the step in their order, every chunk of one request only. |
| `LookupRotation.PostsFair` | patches/async_lookup.bounded.py:188-224 | At any point of a flush two requests' posted chunk counts differ by at most one unless the one with fewer has nothing left. |
| `LookupRotation.PostsSized` | patches/async_lookup.bounded.py:188-224 | Every chunk is non-empty and at most a batch long. |
| `LookupRotation.PostsComplete` | patches/async_lookup.bounded.py:188-224 | The chunks of a request, in order, are its keys. |
| `LookupManager.AsyncLookupManager.LookUpKey` | patches/async_lookup.bounded.py:160-186 | Registers the request with the key and returns the key's result: with a tier that gives one answer per key, a hit only of a key it has, and a miss only of one it has not or whose lookup was refused or that was invalidated; with no worker running, the last answer published, if there is one. A new key waits for its result, or is a miss when the step has its fill; the effect is that of the protocol's steps. |
| `LookupManager.AsyncLookupManager.Flush` | patches/async_lookup.bounded.py:188-224 | Posts the whole batch, ends, empties the batch; misses are counted for exactly the keys of refused chunks; with no worker running the first chunks are admitted until the queue is full and the rest refused, and then the admitted chunk counts of two requests differ by at most one unless the one with fewer has all its chunks admitted. |
| `LookupManager.AdmittedFairly` | patches/async_lookup.bounded.py:188-224 | Filling the room that is left with the first chunks of a flush admits the requests' chunks fairly in that sense. |
| `LookupManager.EvolvedKeeps` | patches/async_lookup.bounded.py:160-263 | Whatever a method of the manager does, being a sequence of the protocol's steps, keeps the protocol's invariant. |
| `LookupManager.AsyncLookupManager.PostOne` | patches/async_lookup.bounded.py:194-222 | One turn of the rotation: the first lane's next chunk is admitted exactly if the queue has room, and the lane goes to the back or leaves. |
| `LookupManager.AsyncLookupManager.PostAll` | patches/async_lookup.bounded.py:194-222 | The rotation ends; admissions and drops together are all chunks of all lanes. |
| `LookupManager.AsyncLookupManager.DrainResults` | patches/async_lookup.bounded.py:226-239 | Everything published is applied: each key known has the last answer published about it, or its old result; keys, requests and tokens are untouched, and results stay the tier's. |
| `LookupManager.AsyncLookupManager.Cleanup` | patches/async_lookup.bounded.py:241-256 | The request disappears from the index and from every key; a key goes exactly if nobody else wants it, and its token is cancelled. |
| `LookupManager.AsyncLookupManager.InvalidateKeys` | patches/async_lookup.bounded.py:258-263 | Exactly the named known keys become misses; every other result is untouched. |
| `LookupManager.AsyncLookupManager.WorkerStep` | patches/async_lookup.bounded.py:297-335 | One operation of the worker loop is the protocol's step of the same name. |
| `FailOpen.RunsBounded` | patches/kv_lookup_fail_open.py:51-96 | Over every run of arrivals, queries, transfers and departures: at most the configured number of requests are deferred, and the circuit is open only after as many deadlines as the threshold since the last resolve that reset the count. |
| `FailOpen.DeadlineAnswers` | patches/offloading-scheduler.dspark-prefix.py:949-1032 | After every run, a query of a request with no transfer in flight, at or past its first deferral plus the timeout, gets a definite answer. |
| `FailOpen.BypassedForGood` | patches/offloading-scheduler.dspark-prefix.py:927-1032 | A bypassed request stays bypassed through every run in which it does not arrive anew. |
| `FailOpen.BypassedIsNotProbed` | patches/offloading-scheduler.dspark-prefix.py:966-990 | While the circuit is open, and for a bypassed request, a query makes no lookup. |
| `FailOpen.ProbedIff` | patches/offloading-scheduler.dspark-prefix.py:927-990 | A lookup is made exactly for a request that is not in transfer, skipped or bypassed, while the circuit is closed and it is waiting already or others leave room; otherwise it is answered at once, with nothing to load unless it is in transfer, and one turned away for the circuit or the crowd is bypassed from then on. |
| `FailOpen.FoundIsAnswered` | patches/offloading-scheduler.dspark-prefix.py:1022-1032 | After every run: a lookup that is done is answered with exactly what it found, keeping the pins unless that is nothing; the request waits no more, and if it had waited or the circuit had opened, the count of deadlines starts afresh and the circuit is closed. |
| `FailOpen.UndoneWaitsIff` | patches/offloading-scheduler.dspark-prefix.py:995-1014 | After every run: a lookup that is not done waits exactly until its timeout after its first deferral; then it is given up and counted, and the circuit opens for the breaker's time when the count since the last reset reaches the threshold. |
| `FailOpen.ThresholdTrips` | patches/kv_lookup_fail_open.py:51-82 | Over every run: after the deadline that is the threshold-th since the count started afresh, no query of any continuation within the breaker's time makes a lookup. |
| `FailOpen.StaysShut` | patches/kv_lookup_fail_open.py:66-82 | Over every run within its time an open circuit stays as it is and no lookup is made. |
| `FailOpen.ArrivalIsProbed` | patches/offloading-scheduler.dspark-prefix.py:927-990 | A request that arrives and may read the cache has a lookup made by its first query, while the circuit is closed and others leave room; one that may not has none. |
| `FailOpen.LeftTakesNoRoom` | patches/kv_lookup_fail_open.py:95-96 | A request that has left takes no room from others in any run in which it is not queried again. |
| `FailOpen.StepKeeps` | patches/kv_lookup_fail_open.py:51-96 | Every event keeps the invariant of policy, request states and the record of deadlines and resets. |
| `FailOpen.LookupFailOpenPolicy.BypassReason` | patches/kv_lookup_fail_open.py:51-64 | A circuit reason comes first; then a passed deadline ends the deferral, is counted, and opens the circuit at the threshold. |
| `FailOpen.LookupFailOpenPolicy.CircuitBypassReason` | patches/kv_lookup_fail_open.py:66-82 | New work is bypassed while the circuit is open, which also ends its deferral, and while the deferrals of others are at their limit. |
| `FailOpen.LookupFailOpenPolicy.StartDeadline` | patches/kv_lookup_fail_open.py:84-86 | The first deferral fixes the deadline; later ones do not move it. |
| `FailOpen.LookupFailOpenPolicy.ResolveLookup` | patches/kv_lookup_fail_open.py:88-93 | A healthy lookup ends the deferral, resets the count and closes the circuit. |
| `FailOpen.OffloadingScheduler.GetNumNewMatchedTokens` | patches/offloading-scheduler.dspark-prefix.py:927-1032 | The query's answer, what it cancels in the tiers and the new request and policy state, in every branch: transfer in flight, bypassed, circuit, found, deferred, deadline. |
| `FailOpen.DecidedCancels` | patches/offloading-scheduler.dspark-prefix.py:979-1028 | The tiers' work for a request is cancelled by exactly the query that decides it, and its pins are released unless there are tokens to load. |
| `FailOpen.GivenUpIsCancelled` | patches/offloading-scheduler.dspark-prefix.py:979-1013 | Over every run: a request that ends up bypassed had its work in the tiers cancelled and its pins released on the way. |
| `FailOpen.OffloadingScheduler.AwaitLookup` | patches/offloading-scheduler.dspark-prefix.py:995-1014 | An undecided lookup starts the deadline once and is given up, its pins released, exactly when it has passed. |
| `Routing.PlaceOrders` | patches/gpt_oss_triton_kernels_moe.pack128-fused-silu-fast-routing.py:109-139 | Places respect the order by (expert, flat index). |
| `Routing.PlaceInjective` | patches/gpt_oss_triton_kernels_moe.pack128-fused-silu-fast-routing.py:109-139 | Different valid assignments have different places. |
| `Routing.PlaceBounded` | patches/gpt_oss_triton_kernels_moe.pack128-fused-silu-fast-routing.py:109-139 | Every place is below the number of valid assignments. |
| `Routing.RankIsCount` | patches/gpt_oss_triton_kernels_moe.pack128-fused-silu-fast-routing.py:123-133 | A value that occurs once stands, sorted, behind exactly as many values as are smaller. |
| `RoutingKernels.BlockRow` | patches/gpt_oss_triton_kernels_moe.pack128-fused-silu-fast-routing.py:109-139 | The row a padded block computes from sorted packed keys, run lengths and stage-one sums is the assignment's place in the global stable sort. |
| `RoutingKernels.RunsCount` | patches/gpt_oss_triton_kernels_moe.pack128-fused-silu-fast-routing.py:130-132 | A key's scanned run length counts the keys of its column up to it. |
| `RoutingKernels.KeyedAddAssociates` | patches/gpt_oss_triton_kernels_moe.pack128-fused-silu-fast-routing.py:130-131 | On sorted keys the scan's operation is associative, so any bracketing of the parallel scan agrees. |
| `RoutingKernels.SortBlock` | patches/gpt_oss_triton_kernels_moe.pack128-fused-silu-fast-routing.py:109-139 | One program writes exactly the places of its block's valid assignments, both ways, and nothing else. |
| `RoutingKernels.SortBlockwise` | patches/gpt_oss_triton_kernels_moe.pack128-fused-silu-fast-routing.py:141-188 | All blocks in any order, for any top-k and padding, fill buffers of -1 with the global stable order and its inverse. |
| `RoutingKernels.SortedPlaces` | patches/gpt_oss_triton_kernels_moe.pack128-fused-silu-fast-routing.py:769-777 | The single sort puts at each position the assignment whose place it is, and sentinels behind all of them. |
| `RoutingKernels.SortOnce` | patches/gpt_oss_triton_kernels_moe.pack128-fused-silu-fast-routing.py:769-793 | The single sort fills both buffers with the same stable order and the gate weights in that order. |
| `RoutingKernels.RoutedUnique` | patches/gpt_oss_triton_kernels_moe.pack128-fused-silu-fast-routing.py:752-795 | Whichever kernel filled them, in whatever block order, the buffers are equal. |
| `RoutingKernels.RoutedInverse` | patches/gpt_oss_triton_kernels_moe.pack128-fused-silu-fast-routing.py:856-860 | Combine and dispatch are mutual inverses wherever either is not -1. |
| `RoutingKernels.PlaceOnto` | patches/gpt_oss_triton_kernels_moe.pack128-fused-silu-fast-routing.py:769-777 | Every place below the number of valid assignments is some assignment's. |
| `RoutingKernels.BlocksCover` | patches/gpt_oss_triton_kernels_moe.pack128-fused-silu-fast-routing.py:141-188 | Blocks that cover all rows have all valid assignments. |
| `TileSchedule.SlotsDecode` | patches/gpt_oss_triton_kernels_moe.pack128-fused-silu-fast-routing.py:801-814 | A used schedule slot decodes to a block of an expert's slice, different slots to different ones. |
| `TileSchedule.TilesPartition` | patches/gpt_oss_triton_kernels_moe.pack128-fused-silu-fast-routing.py:801-814 | For every block size each row of each expert's slice is in exactly one tile of the schedule. |
| `TileSchedule.HistBound` | patches/gpt_oss_triton_kernels_moe.pack128-fused-silu-fast-routing.py:848-849 | With no expert repeated in a row no expert has more assignments than there are rows, so the per-expert block bound suffices. |
| `TileSchedule.Histogram` | patches/gpt_oss_triton_kernels_moe.pack128-fused-silu-fast-routing.py:783-797 | The histogram counts each expert's valid assignments. |
| `TileSchedule.StoreStarts` | patches/gpt_oss_triton_kernels_moe.pack128-fused-silu-fast-routing.py:797-808 | Running sums: each entry is the sum of the counts before it, the last one the total. |
| `TileSchedule.FillSchedule` | patches/gpt_oss_triton_kernels_moe.pack128-fused-silu-fast-routing.py:785-814 | Storing every expert's blocks row by row, masked, fills exactly the slots of the schedule and leaves -1 elsewhere. |
| `TileSchedule.ScheduleTiles` | patches/gpt_oss_triton_kernels_moe.pack128-fused-silu-fast-routing.py:801-814 | The schedules of all five block sizes, and where each expert's blocks start in them. |
| `FastRouting.FastDeepseekRouting` | patches/gpt_oss_triton_kernels_moe.pack128-fused-silu-fast-routing.py:752-814 | The whole kernel: stable order and inverse, weights in that order, histogram, slice starts, block starts and the five schedules, given no repeated expert in a row and enough slots. |
| `FastRouting.SliceHoldsPlaces` | patches/gpt_oss_triton_kernels_moe.pack128-fused-silu-fast-routing.py:797-800 | The slice a schedule refers to is exactly the expert's run in the sorted order. |
| `HoldTransparency.HoldTransparent` | patches/streaming-parser-engine.dsml-orphan.py:337-530 | Over whole responses: if no unwrapped invoke completes with a declared name, client-visible text, all other events, state and tool index equal those of the engine without recovery, however each hold ends. |
| `HoldTransparency.RecoveryVisibleIff` | patches/streaming-parser-engine.dsml-orphan.py:451-530 | For responses whose invoke markers are not empty, recovery changes what the client sees if and only if some unwrapped invoke completes with a declared name. |
| `HoldTransparency.CommitMatchesWrapped` | patches/streaming-parser-engine.dsml-orphan.py:489-502 | A recovered call emits exactly the events of the same call inside its wrapper and leaves the engine in the same place. |
| `HoldTransparency.StepTogether` | patches/streaming-parser-engine.dsml-orphan.py:337-409 | One token keeps the two engines in step unless it completes a declared name. |
| `HoldTransparency.HeldText` | patches/streaming-parser-engine.dsml-orphan.py:392-409 | Text in a hold is kept back while it can still become a declared name, and otherwise everything held comes out as the other engine's text. |
| `HoldTransparency.HeldTerminal` | patches/streaming-parser-engine.dsml-orphan.py:337-390 | A terminal that does not complete a declared name ends or keeps the hold without trace. |
| `HoldTransparency.FinishTogether` | patches/streaming-parser-engine.dsml-orphan.py:257-310 | The end of the stream undoes an open hold without trace. |
| `HoldTransparency.ApartForever` | patches/streaming-parser-engine.dsml-orphan.py:467-502 | Once the outputs differ in a settled event no continuation makes them equal again. |
| `ToolEvents.ResponseAddressed` | patches/streaming-parser-engine.dsml-orphan.py:532-593 | Over a whole response tool starts are numbered consecutively from 0, and every name, argument and end event addresses the latest started slot. |
| `ToolEvents.TerminalCounted` | patches/streaming-parser-engine.dsml-orphan.py:337-390 | A terminal keeps the tool index equal to the last slot opened, through holds, aborts and recoveries. |
| `Responses.ResponseIsTold` | patches/streaming-parser-engine.dsml-orphan.py:257-593 | Over whole responses, in any order and number of parts: text, thoughts, foreign blocks, wrappers of any number of calls (also ending a thought or a foreign block, or with the last call's end missing), and a response that breaks off. The events are exactly those of the parts in order: every chunk of text as text, of a thought between its start and end, and for each call one start, the chunks of its name, those of its arguments, and one end, numbered in order. |
| `Responses.ResponseIsHeard` | patches/streaming-parser-engine.dsml-orphan.py:257-593 | So what a client puts together from the events is what the response contained: all text, all thoughts, and per call its whole name and arguments and that it ended. |
| `Responses.InsideTold` | patches/streaming-parser-engine.dsml-orphan.py:392-422 | In each place everything but the markers that mean something there, other terminals included, comes out as content of that place, chunk by chunk. |
| `Responses.BehindIsTold` | patches/streaming-parser-engine.dsml-orphan.py:424-444 | Text behind a recovered call comes out as text, whole and in order, but for white space at its end, which is kept back until something else follows. |
| `StreamingParser.StreamingParserEngine.HandleTerminal` | patches/streaming-parser-engine.dsml-orphan.py:337-390 | The in-place method computes the engine step on values, for every state, terminal and hold. |
| `StreamingParser.StreamingParserEngine.Emit` | patches/streaming-parser-engine.dsml-orphan.py:392-444 | Text in the current state, including the end of a hold by a bad prefix, as the engine step on values. |
| `StreamingParser.StreamingParserEngine.ProcessTokens` | patches/streaming-parser-engine.dsml-orphan.py:318-335 | Feeding tokens one at a time computes the run of the engine step. |
| `StreamingParser.StreamingParserEngine.FinishInPlace` | patches/streaming-parser-engine.dsml-orphan.py:257-310 | The end of the stream as the engine step on values: hold undone, pending text out, open call ended. |
| `StreamingParser.RunConcat` | patches/streaming-parser-engine.dsml-orphan.py:318-335 | Feeding a stream in pieces is feeding it whole. |
| `StreamingParser.ToolTerminalsOfTable` | patches/parser-deepseek-v4.dsml-orphan.py:150-236 | The terminals treated as tool terminals are exactly those the transition table uses to reach or leave tool states. |
| `ArgPrefix.SafeArgPrefix` | patches/parser-engine.dsml-orphan.py:285-347 | The character loop computes the safe prefix defined over whole strings: up to the last top-level value, or into its string up to the last complete character. |
| `ArgPrefix.ScanChar` | patches/parser-engine.dsml-orphan.py:296-325 | One turn of the loop keeps the cursor equal to the scan of the text read. |
| `ArgStability.SafePrefixForm` | patches/parser-engine.dsml-orphan.py:285-347 | On the text of any serialized object, escapes and nested values included, the safe prefix is everything before the last value, and of a streamable string also its escaped text without the closing quote. |
| `ArgStability.ScanObject` | patches/parser-engine.dsml-orphan.py:296-325 | The scan of an object's text stops at its last top-level colon with that entry's key. |
| `ArgStability.CloseEscaped` | patches/parser-engine.dsml-orphan.py:330-345 | The search for a closing quote passes any escaped text and stops right behind it. |
| `ArgStream.SafeStays` | patches/parser-engine.dsml-orphan.py:285-347 | The safe prefix of a partial object is a prefix of the text, and of the safe prefix, of every object that extends it. |
| `ArgStream.SafeIsAllThatIsSure` | patches/parser-engine.dsml-orphan.py:285-347 | The safe prefix of a partial object with entries is the greatest: a text begins every object that extends it if and only if it is part of the safe prefix. |
| `ArgStream.ChunkStreamsAll` | patches/parser-engine.dsml-orphan.py:955-996 | A chunk that has a structural character, or any if none are asked for, streams all that is safe by then, whichever chunks were passed over before. |
| `ArgStream.GrowingStreams` | patches/parser-engine.dsml-orphan.py:955-996 | While arguments grow, what has been streamed is the whole safe prefix of the latest. |
| `ArgStream.StreamIsFinal` | patches/parser-engine.dsml-orphan.py:998-1022 | For arguments growing to a final object the streamed text is that object's, complete. |
| `ArgStream.ToolCallSlot.ComputeArgDelta` | patches/parser-engine.dsml-orphan.py:955-996 | What is sent is exactly what `streamed_json` grows by, and it grows to the safe prefix of the current arguments whenever the chunk has them converted again, structural characters or not, and that prefix extends what was streamed; otherwise not at all. |
| `ArgStream.ToolCallSlot.HandleArgChunk` | patches/parser-engine.dsml-orphan.py:851-877 | A chunk is appended to the arguments; of a call whose name has been sent it sends what `streamed_json` grows by, to the safe prefix if it is converted again; of any other it sends no arguments. |
| `ArgStream.ChunksSendFinal` | patches/parser-engine.dsml-orphan.py:851-1022 | Whichever chunks were passed over for want of a structural character, if the arguments grow to a final object then what the chunks stream and the end of the call add up to exactly that object's text. |
| `ArgStream.StreamedIsSafe` | patches/parser-engine.dsml-orphan.py:955-996 | After any number of chunks, some passed over, what has been streamed is part of the safe prefix of the arguments then. |
| `ArgStream.ToolCallSlot.HandleArguments` | patches/parser-engine.dsml-orphan.py:729-921 | The argument events of a named call in order, and its end: the deltas sent add up to exactly the final object's text. |
| `ArgStream.ToolCallSlot.FlushArgConverter` | patches/parser-engine.dsml-orphan.py:998-1022 | The final conversion adds exactly the missing end of the final text, or nothing when the text streamed is not its prefix. |
| `ArgStream.ToolCallSlot.HandleToolEnd` | patches/parser-engine.dsml-orphan.py:879-921 | The end of a call, repeated or not, flushes the final arguments and sends the name if it is acceptable and unsent; the invariant of emitted and streamed text holds. |
| `ArgStream.ToolCallSlot.EmitNameDelta` | patches/parser-engine.dsml-orphan.py:827-849 | The name is sent exactly if a candidate exists and is accepted. |
| `DeltaCoalescing.Coalesce` | patches/parser-engine.dsml-orphan.py:924-951 | One delta per index in the order of first appearance, telling what its deltas told together; deltas that already stand alone are returned as they are. |
| `DeltaCoalescing.MergedTellsTheSame` | patches/parser-engine.dsml-orphan.py:924-951 | A client given the merged deltas ends up with the same id, type, name and arguments for every call, whatever it was given before. |
| `DeltaCoalescing.ReceivedSplits` | patches/parser-engine.dsml-orphan.py:924-951 | What a client knows after two batches is what the first told followed by what the second told. |
| `DeltaCoalescing.ReceivedInOrder` | patches/parser-engine.dsml-orphan.py:924-951 | What a client knows of a call is the first name it was given and all argument texts in the order they came. |
| `DeltaCoalescing.MergeInto` | patches/parser-engine.dsml-orphan.py:934-948 | Merging keeps the first id, type and name and appends the arguments. |
| `PagedLogits.PagedMqaLogits` | patches/aiter_pa_mqa_logits.i64.py:618-1377 | All programs of a row in any order, for any split count and any KV block size that is a multiple of the chunk: every position of the context within the output row is written exactly once, with the logit of the row its block table entry names, and positions past it with nothing but minus infinity. |
| `PagedLogits.PipelinedSplit` | patches/aiter_pa_mqa_logits.i64.py:1015-1377 | The two-stage pipelined loop over one split writes what the naive loop writes, each position of its chunks once. |
| `PagedLogits.PipelineTurn` | patches/aiter_pa_mqa_logits.i64.py:1173-1336 | One turn writes the second half of a chunk and the first of the next, and leaves both prefetched blocks right for the next turn. |
| `PagedLogits.StartPipeline` | patches/aiter_pa_mqa_logits.i64.py:1015-1171 | The prologue writes the first half-chunk and establishes the prefetched state. |
| `PagedLogits.FinishSplit` | patches/aiter_pa_mqa_logits.i64.py:1338-1377 | The epilogue writes the last half-chunk, masked at the context's end. |
| `PagedLogits.SplitProgram` | patches/aiter_pa_mqa_logits.i64.py:618-637 | A program works out its own range and runs it unless it is empty; ranges start where the previous one ends. |
| `PagedLogits.OwnerOf` | patches/aiter_pa_mqa_logits.i64.py:624-634 | The splits partition the chunks: every chunk is in exactly one split. |
| `PagedLogits.SplitFacts` | patches/aiter_pa_mqa_logits.i64.py:624-637 | Start and limit as the kernel computes them describe exactly that range, and an empty one is skipped. |
| `PagedLogits.PrimedNext` | patches/aiter_pa_mqa_logits.i64.py:1185-1192 | The block rank is reset and the next table entry loaded exactly at a block's last stage. |
| `PagedLogits.StoreStage` | patches/aiter_pa_mqa_logits.i64.py:1150-1171 | A stage stores its lanes at their positions, masks those past the row, and writes minus infinity past the context. |
| `SplitDecode.DecodeRagged` | patches/rocm_aiter_mla_sparse.prefill-bh64.py:1283-1446 | The online softmax over blocks of main and extra slots computes the reference quotient, for every block size and validity mask, with or without sink. |
| `SplitDecode.DecodePartial` | patches/rocm_aiter_mla_sparse.prefill-bh64.py:1540-1698 | A split program's running maximum, sum and accumulator are those of its slices of both segments. |
| `SplitDecode.DecodeReduce` | patches/rocm_aiter_mla_sparse.prefill-bh64.py:1757-1798 | Merging the partial states of all splits gives the reference quotient of all slots. |
| `SplitDecode.DecodeSplit` | patches/rocm_aiter_mla_sparse.prefill-bh64.py:1543-1798 | Partial kernels and reduction together equal the single pass, for every split count, segment length and validity mask. |
| `SplitDecode.DecodeIsSoftmax` | patches/rocm_aiter_mla_sparse.prefill-bh64.py:1425-1446 | For scores at or above the sentinel and some valid slot or a sink, that quotient is the softmax average: neither the clamp nor the guard has any effect. |
| `SplitDecode.NothingValid` | patches/rocm_aiter_mla_sparse.prefill-bh64.py:1444-1446 | With no valid slot the output is zero. |
| `SplitDecode.SumAtLeastOne` | patches/rocm_aiter_mla_sparse.prefill-bh64.py:1432-1444 | Relative to its own maximum the denominator is at least one, so it is never clamped. |
| `SplitDecode.TakeSegment` | patches/rocm_aiter_mla_sparse.prefill-bh64.py:1297-1352 | The loop over blocks extends the state by exactly the segment's slots, padding lanes adding nothing. |
| `SplitDecode.Merges` | patches/rocm_aiter_mla_sparse.prefill-bh64.py:1757-1795 | Merging the first n partial states gives maximum and sums over the first n slices of both segments, at any reference maximum. |
| `SplitDecode.Shifts` | patches/rocm_aiter_mla_sparse.prefill-bh64.py:1343-1352 | Moving the reference maximum scales both sums by the same factor. |
| `IndexerLayout.LayoutsAgree` | patches/fused_compress_quant_cache.fnuz-shuffle.py:789-803 | The store kernel's tile offsets and the compressor's shuffled offsets are one address map. |
| `IndexerLayout.StageAgrees` | patches/aiter_pa_mqa_logits.i64.py:1049-1087 | The paged reader's staged pointer arithmetic reads at that same map, for any stage start that is a multiple of 16 within a block. |
| `IndexerLayout.AddressInverse` | patches/rocm_aiter_mla_sparse.prefill-bh64.py:46-80 | The map has an inverse: an address determines token and dimension. |
| `IndexerLayout.AddressOnto` | patches/rocm_aiter_mla_sparse.prefill-bh64.py:46-80 | For a block size that is a multiple of 16 every cell of a block is the address of some token's value, so the map is a bijection onto the block. |
| `IndexerLayout.CellInjective` | patches/rocm_aiter_mla_sparse.prefill-bh64.py:60-88 | Different values of different slots of the whole cache lie in different cells, for both layouts. |
| `IndexerLayout.StoreToken` | patches/rocm_aiter_mla_sparse.prefill-bh64.py:46-91 | A token's key and scale are written to its slot and nothing else changes; a negative slot is skipped. |
| `IndexerLayout.IndexerKQuantAndCache` | patches/rocm_aiter_mla_sparse.prefill-bh64.py:29-91 | All tokens in any program order: every slot written holds key and scale of the last token mapped to it; key and scale of every other slot are untouched. |
| `IndexerLayout.CompressToken` | patches/fused_compress_quant_cache.fnuz-shuffle.py:782-854 | The compressing writer's store, through its own offsets: a token's key and scale go to the same cells of its slot and nothing else changes; a negative slot is skipped. |
| `IndexerLayout.StoredKeys` | patches/rocm_aiter_mla_sparse.prefill-bh64.py:46-91 | Storing a token's key leaves every other slot's key as it was. |
| `IndexerLayout.GatherToken` | patches/rocm_aiter_mla_sparse.prefill-bh64.py:156-214 | A gathered token is the key and scale of the slot its page table names; nothing for a token of no sequence, a zero scale for an entry of no block. |
| `IndexerLayout.GatherReturnsStored` | patches/rocm_aiter_mla_sparse.prefill-bh64.py:156-214 | Gathering after storing returns the key and scale of the last token stored to that slot. |
| `StagedCopy.ComputeSubBlockPtrs` | patches/kv_offload_cpu_gpu_worker.load-war.py:135-182 | Entry i of the stretch points at sub-block skip + i of the block list, on the fast path and the expanded one; the rest of the array is untouched. |
| `StagedCopy.CopyBatch` | patches/kv_offload_cpu_gpu_worker.load-war.py:228-237 | Descriptors that write disjoint bytes are all copied, and no other byte changes. |
| `StagedCopy.StagedIsDirect` | patches/kv_offload_cpu_gpu_worker.load-war.py:434-467 | Copying through the staging buffer leaves exactly what a direct copy leaves. |
| `StagedCopy.StagingDisjoint` | patches/kv_offload_cpu_gpu_worker.load-war.py:440-455 | Staging offsets are prefix sums: regions do not overlap and fill the buffer. |
| `TransferDescriptors.FillTransfer` | patches/kv_offload_cpu_gpu_worker.load-war.py:390-432 | The loops over groups and references write the descriptor list of the transfer, every group's blocks starting where the previous one's end, and count the bytes staging needs. |
| `TransferDescriptors.FillRef` | patches/kv_offload_cpu_gpu_worker.load-war.py:407-432 | One reference adds its group-size source pointers, destination pointers and page sizes behind those already there. |
| `BlockRoundTrip.BlockAt` | patches/kv_offload_cpu_gpu_worker.load-war.py:390-432 | Every block of every reference of every group has its descriptor, at the position the loops give it. |
| `BlockRoundTrip.SlotDecodes` | patches/kv_offload_cpu_gpu_worker.load-war.py:390-432 | Every descriptor is that of exactly such a block. |
| `BlockRoundTrip.AddressesItsBlock` | patches/kv_offload_cpu_gpu_worker.load-war.py:392-400 | Descriptor i of a group that starts at any block index addresses logical block index + i of the request. |
| `BlockRoundTrip.StoreThenLoad` | patches/kv_offload_cpu_gpu_worker.load-war.py:316-592 | Storing a logical block and loading it again is the identity on its bytes, for any chunk size and any starting index of either transfer, as long as the CPU page is left alone in between. |
| `BlockRoundTrip.TransferDisjoint` | patches/kv_offload_cpu_gpu_worker.load-war.py:390-432 | With distinct destination blocks no two descriptors of a transfer write the same byte, and all stay inside both memories. |
| `BlockRoundTrip.BlocksApart` | patches/kv_offload_cpu_gpu_worker.load-war.py:390-432 | Descriptors of different blocks write different bytes, whatever the interleaving of tensor rows. |
| `TransferHandler.ThroughStaging` | patches/kv_offload_cpu_gpu_worker.load-war.py:434-467 | Copying on from a filled staging buffer is copying from the memory it was filled from. |
| `TransferHandler.RunDevice` | patches/kv_offload_cpu_gpu_worker.load-war.py:481-498 | The device's copies of a waiting transfer, read from its descriptor buffers when it gets to it: a transfer ending in the target delivers its pages, a staged store fills its staging buffer and leaves the target alone. |
| `TransferHandler.SingleDirectionOffloadingHandler.TransferAsync` | patches/kv_offload_cpu_gpu_worker.load-war.py:316-527 | A submitted transfer takes buffers nobody holds; its buffers say what it was asked to copy and those of all unfinished transfers still do. |
| `TransferHandler.SingleDirectionOffloadingHandler.TakeBuffers` | patches/kv_offload_cpu_gpu_worker.load-war.py:373-381 | The last buffer set given back, unless it is too small; in any case shared with no unfinished transfer and not in the pool. |
| `TransferHandler.SingleDirectionOffloadingHandler.RunOldest` | patches/kv_offload_cpu_gpu_worker.load-war.py:481-498 | Transfers run in order of submission, each delivering the pages it was submitted for. |
| `TransferHandler.SingleDirectionOffloadingHandler.FinishOldest` | patches/kv_offload_cpu_gpu_worker.load-war.py:529-553 | The oldest finished transfer is reported, a staged store's pages reach the target as they were when the device read them, and its buffers return to the pool. |
| `TransferHandler.SingleDirectionOffloadingHandler.GetFinished` | patches/kv_offload_cpu_gpu_worker.load-war.py:529-553 | Every transfer the device has finished, and no other, oldest first; each staged store is completed in that order. |

## Left out

- DiskReserve.AdmissionKeepsIff: for a reserve above zero, as zero means none; what others write, deletions free and other processes store is one event of the model, so the continuations the condition speaks of are those in which nobody else takes space.
- DiskReserve.ReserveHolds: the bound on whole runs is for this tier as the only writer and admissions in time; `DiskReserve.StaleReadingOverfills` shows it false without the latter.
- LeaseProtocol.HeldShardsAreSafe: asks that every reacquire of the process was granted, as the source ignores a refusal; the exact conditions are `LeaseSafety.StaysExactOnHostIff` and `LeaseSafety.HeldShardsSafeIff`.
- LeaseSafety.ProtectedIff: safe means in every continuation in which this process itself does nothing; what it does next is its own release.
- TierManager.FileSystemTierManager.DeletesAlone: shutdown of a manager is part of the protocol and not of the class.
- PrefixLookup.OffloadingScheduler.Lookup: the greatest-boundary claim is for fixed tier answers and for groups that are not EAGLE groups or are excluded as DSpark groups are; termination and bounds are for any answers and any groups.
- LookupTruth.ResultsTrue: for a tier that gives one answer per key; a key whose file appears or goes meanwhile is reported as it was when it was looked up.
- Responses.ResponseIsTold: parts in which an unwrapped invoke may begin a recovered call are left to `HoldTransparency`, which compares them with the same call in a wrapper.
- ShardIndex.ShardLeaseIndex.LookupBegin: for several lock calls the contract tells what is granted when the others' holds on a shard allow it, or forbid it, throughout; a hold that changes between the calls of one lookup leaves both open.
- HoldTransparency.RecoveryVisibleIff: invoke markers are taken to be non-empty texts, as the lexer's terminals are.
- PagedLogits.PagedMqaLogits: one query position per row (`next_n` of 1) and one logit per position from an abstract row; causal masking of interior stages and the multiplication itself are not modelled.
- SplitDecode.DecodeIsSoftmax: scores at or above the sentinel, exact reals, one head and one value component; rounding and quantisation are not modelled, and the exponential is any positive function with its two laws.
- RoutingKernels.SortBlockwise: takes stage one's per-block exclusive column counts and column starts as given; the gate weights of the blockwise kernel are not modelled.
- FastRouting.FastDeepseekRouting: takes as given that no row repeats a valid expert and that `max_n_tiles` slots suffice, and that each block size has a schedule of its own rather than a row of one buffer.
- ArgStream.ChunksSendFinal: for arguments that grow as the converter produces them (last string longer, last other value changed, entries added); the DSML converter and schema coercion themselves are parameters, and a slot without a converter, whose text goes out raw, is not modelled; `ArgStream.StreamIsFinal` likewise.
- BlockRoundTrip.StoreThenLoad: memories are byte sequences, and that a GPU copy does what its descriptors say when the device gets to it is taken as given.
- TransferHandler.SingleDirectionOffloadingHandler.RunOldest: streams and events are an order of completion; waiting, timing and the choice of copy routine are not modelled.
- TierManager.FileSystemTierManager.SubmitStore: key events for stored blocks, metrics and the exception path's repeated lease release are not modelled.
- Lexer, token-id scanner, the message-header state and the buffering of raw JSON arguments: the engine is modelled over lexed tokens with the DeepSeek V4 table, which uses none of the latter two.
- Path normalisation, shard scanning and the persisting of use times to the file system.
- Request shutdown, draining and statistics of the tier manager and the worker threads' loops around the modelled operations.
- Store scheduling, pending flushes, EAGLE trailing chunks and KV events of the offloading scheduler.
- Extraction of complete, non-streamed tool calls, structural tags, reasoning separation and schema coercion.
- The variable-context paged kernel, prefill attention, inverse RoPE, weight layouts, backend selection, tuning flags and deployment files.
- GPU barriers, scheduling hints, launch shapes, FP8 and MXFP4 encoding.
