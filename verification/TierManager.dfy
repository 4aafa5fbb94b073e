/** The filesystem tier: store and load jobs, their leases and disk reservations, and the
    schedule of evictions that frees space for them.
 */
module TierManager {
  import EvictionGate
  import EvictionProtocol
  import DiskReserve
  import opened ShardLeases
  import opened ShardIndex
  import opened Sums
  import opened Wrappers

  datatype JobResult = JobResult(job: int, success: bool)

  /** What the eviction worker deletes. */
  datatype Target = Tombstone(name: string) | Directory(shard: Shard)

  datatype Deletion = Deletion(target: Target, success: bool)

  lemma KeysWithout<V>(m: map<int, V>, k: int)
    ensures (m - {k}).Keys == m.Keys - {k}
  {
  }

  predicate Distinct(done: seq<JobResult>) {
    forall i, j :: 0 <= i < j < |done| ==> done[i].job != done[j].job
  }

  function JobsOf(done: seq<JobResult>): set<int> {
    set r | r in done :: r.job
  }

  /** The I/O threads: jobs run and complete in any order. */
  class TransferPool {
    var running: set<int>
    var accepts: seq<bool>
    var completions: seq<seq<JobResult>>

    predicate Accepts()
      reads this
    {
      accepts != [] && accepts[0]
    }

    /** Start a job; false stands for the exception a closed pool raises. */
    method Enqueue(job: int) returns (ok: bool)
      modifies this
      ensures running == old(running) + if ok then {job} else {}
      ensures ok == old(Accepts())
    {
      ok := accepts != [] && accepts[0];
      accepts := if accepts == [] then [] else accepts[1..];
      if ok {
        running := running + {job};
      }
    }

    method GetFinished() returns (done: seq<JobResult>)
      modifies this
      ensures Distinct(done) && JobsOf(done) <= old(running) && running == old(running) - JobsOf(done)
      ensures done == [] || (old(completions) != [] && done == old(completions)[0])
    {
      done := [];
      if completions != [] && Distinct(completions[0]) && JobsOf(completions[0]) <= running {
        done := completions[0];
      }
      completions := if completions == [] then [] else completions[1..];
      running := running - JobsOf(done);
    }
  }

  /** The one background thread that deletes; `queue` is what was submitted and not yet collected. */
  class EvictionWorker {
    var queue: seq<Target>
    var progress: seq<seq<bool>>

    method Submit(target: Target)
      modifies this`queue
      ensures queue == old(queue) + [target]
    {
      queue := queue + [target];
    }

    method GetFinished() returns (done: seq<Deletion>)
      modifies this
      ensures |done| <= |old(queue)| && queue == old(queue)[|done|..]
      ensures forall i :: 0 <= i < |done| ==> done[i].target == old(queue)[i]
    {
      var outcomes := if progress == [] || |progress[0]| > |queue| then [] else progress[0];
      done := seq(|outcomes|, i requires 0 <= i < |outcomes| && |outcomes| <= |queue| reads this =>
                                Deletion(queue[i], outcomes[i]));
      progress := if progress == [] then [] else progress[1..];
      queue := queue[|done|..];
    }
  }

  class Disk {
    /** What a file system query would report at this moment. */
    var free: int
  }

  function Directories(queue: seq<Target>): set<Shard> {
    set t | t in queue && t.Directory? :: t.shard
  }

  /** The jobs in progress are the recorded stores and loads. */
  predicate Accounts(running: set<int>, collected: set<int>, stores: set<int>, loads: set<int>) {
    stores !! loads && running !! collected && running + collected == stores + loads
  }

  lemma SettledAccounts(running: set<int>, collected: set<int>, stores: set<int>, loads: set<int>, job: int)
    requires Accounts(running, collected, stores, loads) && job in collected
    ensures Accounts(running, collected - {job}, stores - {job}, loads - {job})
    ensures (stores + loads) - {job} == (stores - {job}) + (loads - {job})
  {
  }

  lemma NewLoadAccounts(running: set<int>, stores: set<int>, loads: set<int>, job: int)
    requires Accounts(running, {}, stores, loads) && job !in running
    ensures Accounts(running, {job}, stores, loads + {job}) && stores + (loads + {job}) == stores + loads + {job}
  {
  }

  lemma StartedAccounts(running: set<int>, stores: set<int>, loads: set<int>, job: int)
    requires Accounts(running, {job}, stores, loads)
    ensures Accounts(running + {job}, {}, stores, loads)
  {
  }

  /** Jobs are reported once: an accepted job is reported, or in progress, or waits as failed. */
  predicate Reports(accepted: set<int>, reported: set<int>, active: set<int>, failed: seq<int>) {
    && accepted == reported + active + (set j | j in failed)
    && reported !! active
    && (forall j :: j in failed ==> j !in reported && j !in active)
    && (forall i, j :: 0 <= i < j < |failed| ==> failed[i] != failed[j])
  }

  lemma StartedReports(accepted: set<int>, reported: set<int>, active: set<int>, failed: seq<int>, job: int)
    requires Reports(accepted, reported, active, failed) && job !in accepted
    ensures Reports(accepted + {job}, reported, active + {job}, failed)
    ensures Reports(accepted + {job}, reported, active, failed + [job])
  {
    assert forall j :: j in failed + [job] <==> j in failed || j == job;
  }

  function Failures(failed: seq<int>): seq<JobResult> {
    seq(|failed|, i requires 0 <= i < |failed| => JobResult(failed[i], false))
  }

  /** Reporting the failed and the finished jobs reports each of them for the first time. */
  lemma ReportedOnce(accepted: set<int>, reported: set<int>, active: set<int>, failed: seq<int>, done: seq<JobResult>)
    requires Reports(accepted, reported, active, failed) && Distinct(done) && JobsOf(done) <= active
    ensures Reports(accepted, reported + JobsOf(Failures(failed) + done), active - JobsOf(done), [])
    ensures Distinct(Failures(failed) + done) && JobsOf(Failures(failed) + done) !! reported
    ensures JobsOf(Failures(failed) + done) == (set j | j in failed) + JobsOf(done)
  {
    var all := Failures(failed) + done;
    assert forall i :: 0 <= i < |failed| ==> all[i].job == failed[i];
    assert forall i :: 0 <= i < |done| ==> all[|failed| + i] == done[i] && done[i].job in JobsOf(done);
    forall job | job in (set j | j in failed) + JobsOf(done) ensures job in JobsOf(all) {
      if job in failed {
        var i :| 0 <= i < |failed| && failed[i] == job;
        assert all[i] in all;
      } else {
        var r :| r in done && r.job == job;
        assert r in all;
      }
    }
  }

  lemma FirstJob(rest: seq<JobResult>, done: seq<JobResult>, i: nat)
    requires i < |done| && rest == done[i..] && Distinct(done)
    ensures done[i].job in JobsOf(rest) && JobsOf(done[i + 1..]) == JobsOf(rest) - {done[i].job}
  {
    var next := done[i + 1..];
    assert rest[0] == done[i];
    assert forall k :: 0 <= k < |next| ==> next[k] == done[i + 1 + k] && next[k] == rest[k + 1];
    forall r | r in rest && r.job != done[i].job ensures r in next {
      var k :| 0 <= k < |rest| && rest[k] == r;
      assert k > 0 && next[k - 1] == r;
    }
    forall r | r in next ensures r in rest && r.job != done[i].job {
      var k :| 0 <= k < |next| && next[k] == r;
      assert rest[k + 1] == r;
    }
  }

  /** The refused jobs are reported as failed, the others as the pool reports them. */
  predicate Outcomes(results: seq<JobResult>, failed: seq<int>, done: seq<JobResult>,
                     completions: seq<seq<JobResult>>) {
    results == Failures(failed) + done && (done == [] || (completions != [] && done == completions[0]))
  }

  /** A refused job is reported, as failed; a success is reported only of a job that has finished with one. */
  lemma FailuresAreTold(results: seq<JobResult>, failed: seq<int>, done: seq<JobResult>,
                        completions: seq<seq<JobResult>>)
    requires Outcomes(results, failed, done, completions)
    ensures forall i :: 0 <= i < |failed| ==> JobResult(failed[i], false) in results
    ensures forall r :: r in results && r.success ==> r in done
  {
    forall i | 0 <= i < |failed| ensures JobResult(failed[i], false) in results {
      assert results[i] == JobResult(failed[i], false);
    }
  }

  /** The keys whose cached hits failed loads disprove. */
  function FailedKeys(done: seq<JobResult>, loads: map<int, seq<nat>>): set<nat> {
    set r, k | r in done && !r.success && r.job in loads && k in loads[r.job] :: k
  }

  lemma NoFailures(loads: map<int, seq<nat>>)
    ensures FailedKeys([], loads) == {}
  {
  }

  lemma NextFailed(done: seq<JobResult>, i: nat, loads: map<int, seq<nat>>)
    requires i < |done| && Distinct(done)
    ensures done[i].job !in JobsOf(done[..i]) && JobsOf(done[..i + 1]) == JobsOf(done[..i]) + {done[i].job}
    ensures FailedKeys(done[..i + 1], loads) == FailedKeys(done[..i], loads) +
              if !done[i].success && done[i].job in loads then (set k | k in loads[done[i].job]) else {}
  {
    assert done[..i + 1] == done[..i] + [done[i]];
  }

  lemma NoJobs()
    ensures JobsOf([]) == {}
  {
  }

  lemma CollectedAccounts(running: set<int>, done: set<int>, stores: set<int>, loads: set<int>)
    requires Accounts(running, {}, stores, loads) && done <= running
    ensures Accounts(running - done, done, stores, loads)
  {
  }

  /** What settling finished jobs is to the disk: the stores among them complete. */
  lemma {:induction false} Settled(v: DiskReserve.Volume, cfg: DiskReserve.Settings, done: seq<JobResult>)
    returns (events: seq<DiskReserve.Event>, after: DiskReserve.Volume)
    requires Distinct(done)
    ensures DiskReserve.Evolved(v, cfg, events, after)
    ensures after.free == v.free && after.reading == v.reading && after.clock == v.clock
    ensures after.reserved == v.reserved - JobsOf(done)
    decreases |done|
  {
    if done == [] {
      NoJobs();
      return [], v;
    }
    var job := done[0].job;
    FirstJob(done, done, 0);
    assert v.reserved - JobsOf(done) == v.reserved - {job} - JobsOf(done[1..]);
    if job in v.reserved {
      var e := DiskReserve.Complete(job);
      DiskReserve.EvolvedOne(v, cfg, e);
      events, after := Settled(DiskReserve.Next(v, cfg, e), cfg, done[1..]);
      DiskReserve.EvolvedOn(v, cfg, [e], DiskReserve.Next(v, cfg, e), events, after);
      events := [e] + events;
    } else {
      assert v.reserved - {job} == v.reserved;
      events, after := Settled(v, cfg, done[1..]);
    }
  }

  /** The tombstones from the first that still exists on. */
  function Surviving(tombstones: seq<string>, exists_: string -> bool): seq<string> {
    if tombstones == [] || exists_(tombstones[0]) then tombstones else Surviving(tombstones[1..], exists_)
  }

  /** Those before it are gone. */
  lemma {:induction false} SurvivingIs(tombstones: seq<string>, exists_: string -> bool)
    ensures var left := Surviving(tombstones, exists_);
            && |left| <= |tombstones| && left == tombstones[|tombstones| - |left|..]
            && (left != [] ==> exists_(left[0]))
            && forall i :: 0 <= i < |tombstones| - |left| ==> !exists_(tombstones[i])
  {
    if tombstones != [] && !exists_(tombstones[0]) {
      SurvivingIs(tombstones[1..], exists_);
      forall i | 0 < i < |tombstones| ensures tombstones[i] == tombstones[1..][i - 1] {
      }
    }
  }

  class FileSystemTierManager {
    const gate: EvictionGate.SharedEvictionGate
    const leases: ShardLeaseIndex
    const pool: TransferPool
    const worker: EvictionWorker
    const disk: Disk
    const minFreeBytes: nat
    const triggerBytes: nat
    const targetBytes: nat
    const blockSize: nat
    const spaceCheckInterval: real
    /** The shard directory a key's file lies in. */
    const shardOf: nat -> Shard
    /** A tombstone's path, in the names of shards. */
    const pathOf: string -> Shard

    var lastSpaceCheck: real
    var availableBytes: int
    var failedJobs: seq<int>
    var reservedStoreBytes: int
    var storeJobReservedBytes: map<int, int>
    var storeJobKeys: map<int, seq<nat>>
    var loadJobKeys: map<int, seq<nat>>
    var evictionActive: bool
    var orphanTombstones: seq<string>
    /** Keys whose cached positive lookups were destroyed. */
    var invalidated: set<nat>
    ghost var accepted: set<int>
    ghost var reported: set<int>
    /** The steps of the eviction protocol this manager has taken. */
    ghost var history: seq<EvictionProtocol.Action>

    /** Every running job, and each of `collected` not yet accounted for, holds exactly its leases
        and its reservation; nothing else does. */
    ghost predicate Booked(collected: set<int>)
      reads this`storeJobKeys, this`storeJobReservedBytes, this`reservedStoreBytes, this`loadJobKeys
      reads gate`storeJobs, leases`jobShards, pool`running
    {
      && Accounts(pool.running, collected, storeJobKeys.Keys, loadJobKeys.Keys)
      && gate.storeJobs == storeJobKeys.Keys
      && storeJobReservedBytes.Keys == storeJobKeys.Keys
      && leases.jobShards.Keys == storeJobKeys.Keys + loadJobKeys.Keys
      && reservedStoreBytes == SumOf(storeJobReservedBytes)
    }

    ghost predicate Tracked(active: set<int>)
      reads this`accepted, this`reported, this`failedJobs
    {
      Reports(accepted, reported, active, failedJobs)
    }

    /** This manager as a process of the eviction protocol. */
    ghost function Manager(): EvictionProtocol.Proc
      reads this`evictionActive, gate, worker`queue
    {
      EvictionProtocol.Proc(gate.View(), evictionActive, false, |worker.queue|, 0, false)
    }

    /** At most one deletion is outstanding, and only behind the host's write fence; and whatever the manager
        has done, it was steps of the protocol. */
    ghost predicate Fenced()
      reads this`evictionActive, this`history, gate, gate.locks, leases`evicting, worker`queue
    {
      && gate.Valid() && !gate.closed
      && evictionActive == gate.ownsEviction
      && |worker.queue| <= 1
      && (worker.queue != [] ==> gate.writesFenced)
      && leases.evicting == Directories(worker.queue)
      && EvictionProtocol.Managed(gate.pid, history) == Some(Manager())
    }

    ghost predicate Valid()
      reads this, gate, gate.locks, leases, pool, worker
    {
      Booked({}) && Tracked(pool.running) && Fenced()
    }

    constructor (gate: EvictionGate.SharedEvictionGate, leases: ShardLeaseIndex, pool: TransferPool,
                 worker: EvictionWorker, disk: Disk, shardOf: nat -> Shard, pathOf: string -> Shard,
                 minFreeBytes: nat, triggerBytes: nat, targetBytes: nat, blockSize: nat, spaceCheckInterval: real,
                 orphanTombstones: seq<string>)
      requires gate.Valid() && gate.View() == EvictionGate.FRESH
      requires leases.jobShards == map[] && leases.evicting == {} && pool.running == {} && worker.queue == []
      ensures Valid() && accepted == {} && reported == {} && reservedStoreBytes == 0
      ensures forall clock: real :: Shows(DiskReserve.Started(disk.free, clock))
      ensures this.gate == gate && this.leases == leases && this.pool == pool && this.worker == worker
    {
      this.gate, this.leases, this.pool, this.worker, this.disk := gate, leases, pool, worker, disk;
      this.shardOf, this.pathOf, this.minFreeBytes, this.triggerBytes := shardOf, pathOf, minFreeBytes, triggerBytes;
      this.targetBytes, this.blockSize, this.spaceCheckInterval := targetBytes, blockSize, spaceCheckInterval;
      this.orphanTombstones := orphanTombstones;
      lastSpaceCheck, availableBytes, failedJobs, reservedStoreBytes := 0.0, 0, [], 0;
      storeJobReservedBytes, storeJobKeys, loadJobKeys := map[], map[], map[];
      evictionActive, invalidated, accepted, reported, history := false, {}, {}, {}, [];
    }

    function LastReading(): DiskReserve.Reading
      reads this`availableBytes, this`lastSpaceCheck
    {
      DiskReserve.Reading(availableBytes, lastSpaceCheck)
    }

    function ReserveSettings(): DiskReserve.Settings {
      DiskReserve.Settings(minFreeBytes, spaceCheckInterval)
    }

    /** The volume has this tier's reservations and its last reading, and is as free as the disk. */
    ghost predicate Shows(v: DiskReserve.Volume)
      reads this`availableBytes, this`lastSpaceCheck, this`storeJobReservedBytes, disk
    {
      v.free == disk.free && v.reading == LastReading() && v.reserved == storeJobReservedBytes
    }

    /** The free space, read again unless the last reading is recent. */
    method GetAvailableBytes(now: real) returns (available: int)
      modifies this`lastSpaceCheck, this`availableBytes
      ensures available == availableBytes
      ensures LastReading() == DiskReserve.Read(old(LastReading()), spaceCheckInterval, now, disk.free)
      ensures old(lastSpaceCheck) == 0.0 || now - old(lastSpaceCheck) >= spaceCheckInterval ==>
                availableBytes == disk.free && lastSpaceCheck == now
    {
      if lastSpaceCheck != 0.0 && now - lastSpaceCheck < spaceCheckInterval {
        return availableBytes;
      }
      availableBytes, lastSpaceCheck := disk.free, now;
      available := availableBytes;
    }

    method HasStoreSpace(requiredBytes: int, now: real) returns (ok: bool)
      modifies this`lastSpaceCheck, this`availableBytes
      ensures ok <==> minFreeBytes == 0 || availableBytes - reservedStoreBytes - requiredBytes >= minFreeBytes
      ensures LastReading() ==
                if minFreeBytes == 0 then old(LastReading())
                else DiskReserve.Read(old(LastReading()), spaceCheckInterval, now, disk.free)
    {
      if minFreeBytes == 0 {
        return true;
      }
      var available := GetAvailableBytes(now);
      ok := available - reservedStoreBytes - requiredBytes >= minFreeBytes;
    }

    function PathOf(target: Target): Shard {
      match target
      case Tombstone(name) => pathOf(name)
      case Directory(s) => s
    }

    /** The shard times once a deletion has finished: what is deleted is forgotten, what could not be deleted, a
        tombstone too, is as old as its directory, if it has one. */
    function Retired(used: map<Shard, int>, deletion: Deletion, mtimeOf: Shard -> Option<int>): map<Shard, int> {
      var s := PathOf(deletion.target);
      if deletion.success then used - {s}
      else if mtimeOf(s).Some? then used[s := mtimeOf(s).value]
      else used
    }

    /** Account for a finished deletion. */
    method AccountFor(deletion: Deletion, mtimeOf: Shard -> Option<int>)
      requires leases.evicting == Directories([deletion.target])
      modifies this`lastSpaceCheck, leases`evicting, leases`lastUsed
      ensures leases.evicting == {} && lastSpaceCheck == 0.0
      ensures leases.lastUsed == Retired(old(leases.lastUsed), deletion, mtimeOf)
    {
      var s := PathOf(deletion.target);
      ghost var steps := leases.FinishEviction(s, deletion.success, mtimeOf(s).Some?, mtimeOf(s));
      lastSpaceCheck := 0.0;
    }

    /** Account for finished deletions; the next reading of the free space is then a fresh one. `mtimeOf` tells a
        failed shard's directory time, if it has one. */
    method DrainEvictions(mtimeOf: Shard -> Option<int>) returns (ghost finished: seq<Deletion>)
      requires Fenced()
      modifies this`history, this`lastSpaceCheck, worker, leases`evicting, leases`lastUsed
      ensures old(history) <= history
      ensures Fenced() && |finished| <= 1
      ensures finished == [] ==>
                && worker.queue == old(worker.queue) && lastSpaceCheck == old(lastSpaceCheck)
                && leases.lastUsed == old(leases.lastUsed)
      ensures finished != [] ==>
                && [finished[0].target] == old(worker.queue) && worker.queue == [] && lastSpaceCheck == 0.0
                && leases.lastUsed == Retired(old(leases.lastUsed), finished[0], mtimeOf)
      ensures triggerBytes == 0 ==> unchanged(this, worker, leases)
    {
      finished := [];
      if triggerBytes == 0 {
        return;
      }
      hide EvictionGate.SharedEvictionGate.Valid, EvictionProtocol.Managed, Retired;
      var done := worker.GetFinished();
      finished := done;
      if done != [] {
        assert [done[0].target] == old(worker.queue);
        history := EvictionProtocol.Drains(gate.pid, history, old(Manager()));
        AccountFor(done[0], mtimeOf);
      }
    }

    /** Some idle shard can be taken whatever the other processes do. */
    ghost predicate SomeFree()
      reads leases, leases.kernel
    {
      exists s :: s in leases.Idle() && leases.Free(s)
    }

    /** None can. */
    ghost predicate AllKept()
      reads leases, leases.kernel
    {
      forall s :: s in leases.Idle() ==> leases.Kept(s)
    }

    /** Submit the deletion of the oldest idle shard, if one can be had. */
    method SubmitOldest() returns (submitted: bool)
      requires worker.queue == [] && leases.evicting == {}
      modifies worker`queue, leases`evicting, leases.kernel
      ensures submitted <==> worker.queue != []
      ensures submitted ==> exists s :: s in old(leases.Idle()) && worker.queue == [Directory(s)]
      ensures old(SomeFree()) ==> submitted
      ensures old(AllKept()) ==> !submitted
      ensures |worker.queue| <= 1 && leases.evicting == Directories(worker.queue)
    {
      hide EvolvedSurely;
      var oldest;
      ghost var refused, moves;
      oldest, refused, moves := leases.BeginOldestEviction();
      submitted := oldest.Some?;
      if submitted {
        worker.Submit(Directory(oldest.value));
      }
    }

    /** Fence writes and, behind the fence, submit one deletion. */
    method SubmitDeletion(target: Option<Target>) returns (submitted: bool)
      requires Fenced() && evictionActive && worker.queue == []
      requires target.Some? ==> target.value.Tombstone?
      modifies this`history, gate`writesFenced, gate.locks, worker`queue, leases`evicting, leases.kernel
      ensures old(history) <= history
      ensures Fenced()
      ensures submitted <==> worker.queue != []
      ensures submitted ==> gate.writesFenced && gate.ownsEviction && (target.Some? ==> worker.queue == [target.value])
      ensures submitted && target.None? ==> exists s :: s in old(leases.Idle()) && worker.queue == [Directory(s)]
      ensures submitted ==> old(gate.Fences(gate.locks.View())) && (target.Some? || !old(AllKept()))
      ensures old(gate.Fences(gate.locks.View())) && (target.Some? || old(SomeFree())) ==> submitted
    {
      hide EvictionGate.SharedEvictionGate.Valid, EvictionGate.Plays, EvictionGate.Replay, EvictionProtocol.Managed,
           EvictionGate.PlaysIn, EvictionGate.SharedEvictionGate.Fences, SomeFree, AllKept;
      var fenced;
      ghost var steps;
      fenced, steps := gate.TryFenceWrites();
      submitted := false;
      if fenced && target.None? {
        submitted := SubmitOldest();
      } else if fenced {
        worker.Submit(target.value);
        submitted := true;
      }
      history := EvictionProtocol.Fences(gate.pid, history, old(Manager()), fenced, submitted);
    }

    /** Drop the tombstones another process has removed meanwhile. */
    method SkipRemovedTombstones(exists_: string -> bool)
      modifies this`orphanTombstones
      ensures orphanTombstones == Surviving(old(orphanTombstones), exists_)
    {
      while orphanTombstones != [] && !exists_(orphanTombstones[0])
        invariant Surviving(orphanTombstones, exists_) == Surviving(old(orphanTombstones), exists_)
        decreases |orphanTombstones|
      {
        orphanTombstones := orphanTombstones[1..];
      }
    }

    /** What the deletion submitted, if any, is: the first surviving tombstone, which leaves the list, or, if
        there is none, a shard that was idle. */
    ghost predicate Evicts(queue: seq<Target>, before: seq<string>, after: seq<string>, idle: set<Shard>) {
      && (queue == [] ==> after == before)
      && (queue != [] && before != [] ==> queue == [Tombstone(before[0])] && after == before[1..])
      && (queue != [] && before == [] ==> after == [] && exists s :: s in idle && queue == [Directory(s)])
    }

    /** With ownership and no deletion outstanding: submit the next deletion, or finish. */
    method EvictNext(available: int, exists_: string -> bool)
      requires Fenced() && evictionActive && worker.queue == []
      modifies this`history, this`evictionActive, this`orphanTombstones
      modifies gate`ownsEviction, gate`writesFenced, gate.locks, worker`queue, leases`evicting, leases.kernel
      ensures old(history) <= history
      ensures Fenced()
      ensures worker.queue != [] ==> gate.writesFenced && gate.ownsEviction
      ensures !gate.ownsEviction <==> Surviving(old(orphanTombstones), exists_) == [] && available >= targetBytes
      ensures !gate.ownsEviction ==> worker.queue == []
      ensures Evicts(worker.queue, Surviving(old(orphanTombstones), exists_), orphanTombstones, old(leases.Idle()))
      ensures worker.queue != [] ==>
                && old(gate.Fences(gate.locks.View()))
                && (Surviving(old(orphanTombstones), exists_) != [] || !old(AllKept()))
      ensures old(gate.Fences(gate.locks.View())) ==>
                Surviving(old(orphanTombstones), exists_) != [] || (available < targetBytes && old(SomeFree())) ==>
                  worker.queue != []
    {
      hide SomeFree, AllKept, EvictionGate.SharedEvictionGate.Fences, EvictionGate.PlaysIn;
      hide EvictionGate.SharedEvictionGate.Valid, EvictionGate.Plays, EvictionGate.Replay, Surviving;
      SkipRemovedTombstones(exists_);
      if orphanTombstones != [] {
        var submitted := SubmitDeletion(Some(Tombstone(orphanTombstones[0])));
        if submitted {
          orphanTombstones := orphanTombstones[1..];
        }
      } else if available >= targetBytes {
        evictionActive := false;
        gate.FinishEviction();
        history := EvictionProtocol.GivesUp(gate.pid, history, old(Manager()));
      } else {
        var submitted := SubmitDeletion(None);
      }
    }

    /** Take the ownership of eviction, if there is something to evict. */
    method SeekOwnership(available: int)
      requires Fenced()
      modifies this`evictionActive, this`history, gate`ownsEviction, gate.locks
      ensures old(history) <= history
      ensures Fenced() && (old(gate.ownsEviction) ==> gate.ownsEviction)
      ensures gate.ownsEviction <==>
                old(gate.ownsEviction)
                || ((available < triggerBytes || orphanTombstones != []) && old(gate.Owns(gate.locks.View())))
      ensures gate.ownsEviction ==> gate.locks.View() == old(gate.Asked(gate.locks.View()))
      ensures gate.locks.View() == old(gate.Asked(gate.locks.View())) || gate.locks.View() == old(gate.locks.View())
    {
      hide EvictionGate.SharedEvictionGate.Valid, EvictionProtocol.Managed, EvictionGate.SharedEvictionGate.Owns,
           EvictionGate.PlaysIn;
      if !evictionActive && (orphanTombstones != [] || available < triggerBytes) {
        ghost var steps;
        evictionActive, steps := gate.TryBeginEviction();
        history := EvictionProtocol.Takes(gate.pid, history, old(Manager()), evictionActive);
      }
    }

    /** Take, use or give up the ownership of eviction. The fence never falls, and no deletion is
        submitted, while one is outstanding; a shard is deleted only when no tombstone is left. */
    method MaybeScheduleEviction(now: real, exists_: string -> bool)
      requires Fenced()
      modifies this`history, this`lastSpaceCheck, this`availableBytes, this`evictionActive, this`orphanTombstones
      modifies gate`ownsEviction, gate`writesFenced, gate.locks, worker`queue, leases`evicting, leases.kernel
      ensures old(history) <= history
      ensures Fenced()
      ensures old(worker.queue) != [] ==>
                worker.queue == old(worker.queue) && gate.writesFenced && orphanTombstones == old(orphanTombstones)
      ensures worker.queue != [] ==> gate.writesFenced && gate.ownsEviction
      ensures old(gate.ownsEviction) && !gate.ownsEviction ==> worker.queue == [] && availableBytes >= targetBytes
      ensures !old(gate.ownsEviction) && gate.ownsEviction ==>
                availableBytes < triggerBytes || old(orphanTombstones) != []
      ensures triggerBytes > 0 && old(worker.queue) == [] ==>
                (gate.ownsEviction <==>
                   && (old(gate.ownsEviction)
                       || ((availableBytes < triggerBytes || old(orphanTombstones) != [])
                           && old(gate.Owns(gate.locks.View()))))
                   && !(Surviving(old(orphanTombstones), exists_) == [] && availableBytes >= targetBytes))
      ensures triggerBytes > 0 && old(worker.queue) == [] && gate.ownsEviction
              && old(gate.Fences(gate.Asked(gate.locks.View())))
              && (Surviving(old(orphanTombstones), exists_) != [] || old(SomeFree())) ==>
                worker.queue != []
      ensures old(worker.queue) == [] && worker.queue != [] ==>
                && old(gate.Fences(gate.Asked(gate.locks.View())))
                && (Surviving(old(orphanTombstones), exists_) != [] || !old(AllKept()))
      ensures old(worker.queue) == [] && worker.queue != [] ==>
                Evicts(worker.queue, Surviving(old(orphanTombstones), exists_), orphanTombstones, old(leases.Idle()))
      ensures LastReading() ==
                if triggerBytes == 0 then old(LastReading())
                else DiskReserve.Read(old(LastReading()), spaceCheckInterval, now, disk.free)
      ensures triggerBytes == 0 ==> unchanged(this, gate, gate.locks, worker, leases, leases.kernel)
    {
      if triggerBytes == 0 {
        return;
      }
      hide EvictionGate.SharedEvictionGate.Valid, EvictionGate.Plays, EvictionGate.Replay, Surviving, Evicts,
           DiskReserve.Read, EvictionProtocol.Managed, SomeFree, AllKept, EvictionGate.SharedEvictionGate.Owns,
           EvictionGate.SharedEvictionGate.Asked;
      var available := GetAvailableBytes(now);
      SeekOwnership(available);
      if !evictionActive || worker.queue != [] || leases.evicting != {} {
        return;
      }
      EvictNext(available, exists_);
    }

    function ShardsOf(keys: seq<nat>): (shards: set<Shard>)
      ensures forall i :: 0 <= i < |keys| ==> shardOf(keys[i]) in shards
      ensures forall s :: s in shards ==> exists i :: 0 <= i < |keys| && shardOf(keys[i]) == s
    {
      set key | key in keys :: shardOf(key)
    }

    /** The reading a store would be admitted on covers it. */
    ghost predicate SpaceCovers(keys: seq<nat>, now: real)
      reads this`availableBytes, this`lastSpaceCheck, this`reservedStoreBytes, disk
    {
      var reading := ReadingIf(true, LastReading(), now);
      DiskReserve.Covers(minFreeBytes, reading.bytes, reservedStoreBytes, |keys| * blockSize)
    }

    /** A store will be admitted whatever the other processes do to its shards' locks meanwhile. */
    ghost predicate Admissible(job: int, keys: seq<nat>, now: real)
      reads this`availableBytes, this`lastSpaceCheck, this`reservedStoreBytes, disk
      reads gate, gate.locks, leases, leases.kernel
    {
      && gate.Admits(gate.locks.View(), job) && SpaceCovers(keys, now)
      && forall s :: s in ShardsOf(keys) ==> leases.Surely(s)
    }

    /** It will be turned away whatever they do. */
    ghost predicate Inadmissible(job: int, keys: seq<nat>, now: real)
      reads this`availableBytes, this`lastSpaceCheck, this`reservedStoreBytes, disk
      reads gate, gate.locks, leases, leases.kernel
    {
      || !gate.Admits(gate.locks.View(), job) || !SpaceCovers(keys, now)
      || exists s :: s in ShardsOf(keys) && leases.Hardly(s)
    }

    /** Give a store its write lease and its shard leases, space permitting, or neither. */
    method LeaseStore(job: int, keys: seq<nat>, now: real) returns (admitted: bool, ghost looked: bool)
      requires Fenced() && job !in gate.storeJobs && job !in leases.jobShards
      modifies this`history, this`lastSpaceCheck, this`availableBytes, gate`storeJobs, gate`storeLeaseHeld, gate.locks
      modifies leases`sharedLockCounts, leases`sharedLockFds, leases`jobShards, leases.kernel
      ensures old(history) <= history
      ensures Fenced()
      ensures gate.storeJobs == old(gate.storeJobs) + (if admitted then {job} else {})
      ensures admitted ==> gate.storeLeaseHeld && !gate.ownsEviction
      ensures leases.jobShards ==
                if admitted then old(leases.jobShards)[job := ShardsOf(keys)] else old(leases.jobShards)
      ensures admitted ==>
                looked && DiskReserve.Covers(minFreeBytes, availableBytes, reservedStoreBytes, |keys| * blockSize)
      ensures LastReading() == ReadingIf(looked, old(LastReading()), now)
      ensures (old(Admissible(job, keys, now)) ==> admitted) && (old(Inadmissible(job, keys, now)) ==> !admitted)
    {
      hide Fenced, DiskReserve.Read, SpaceCovers, ShardLeaseIndex.Surely, ShardLeaseIndex.Hardly,
           EvictionGate.SharedEvictionGate.Admits;
      admitted := PinStore(job);
      looked := admitted;
      if !admitted {
        return;
      }
      admitted := LeaseSpace(job, keys, now);
      if !admitted {
        ReleaseStore(job);
      }
    }

    method PinStore(job: int) returns (admitted: bool)
      requires Fenced()
      modifies this`history, gate`storeJobs, gate`storeLeaseHeld, gate.locks
      ensures old(history) <= history
      ensures Fenced() && gate.storeJobs == old(gate.storeJobs) + if admitted then {job} else {}
      ensures admitted ==> gate.storeLeaseHeld && !gate.ownsEviction
      ensures admitted <==> old(gate.Admits(gate.locks.View(), job))
    {
      hide EvictionGate.SharedEvictionGate.Valid, EvictionProtocol.Managed, EvictionGate.SharedEvictionGate.Admits,
           EvictionGate.PlaysIn;
      ghost var steps;
      admitted, steps := gate.TryPinStore(job);
      EvictionProtocol.StoreCalls(gate.pid, history, old(Manager()), steps);
      history := history + EvictionProtocol.Calls(gate.pid, steps);
    }

    method ReleaseStore(job: int)
      requires Fenced()
      modifies this`history, gate`storeJobs, gate`storeLeaseHeld, gate.locks
      ensures old(history) <= history
      ensures Fenced() && gate.storeJobs == old(gate.storeJobs) - {job}
    {
      hide EvictionGate.SharedEvictionGate.Valid;
      gate.ReleaseStore(job);
      EvictionProtocol.StoreCalls(gate.pid, history, old(Manager()), [EvictionGate.Release(job)]);
      history := history + EvictionProtocol.Calls(gate.pid, [EvictionGate.Release(job)]);
    }

    /** Space and shard leases for a store that has its write lease. */
    method LeaseSpace(job: int, keys: seq<nat>, now: real) returns (ok: bool)
      requires job !in leases.jobShards
      modifies this`lastSpaceCheck, this`availableBytes
      modifies leases`sharedLockCounts, leases`sharedLockFds, leases`jobShards, leases.kernel
      ensures leases.jobShards == if ok then old(leases.jobShards)[job := ShardsOf(keys)] else old(leases.jobShards)
      ensures ok ==> DiskReserve.Covers(minFreeBytes, availableBytes, reservedStoreBytes, |keys| * blockSize)
      ensures LastReading() == ReadingIf(true, old(LastReading()), now)
      ensures old(SpaceCovers(keys, now)) && (forall s :: s in ShardsOf(keys) ==> old(leases.Surely(s))) ==> ok
      ensures ok ==> old(SpaceCovers(keys, now)) && (forall s :: s in ShardsOf(keys) ==> !old(leases.Hardly(s)))
    {
      hide EvolvedSurely, ShardLeaseIndex.Surely, ShardLeaseIndex.Hardly;
      ok := HasStoreSpace(|keys| * blockSize, now);
      if ok {
        ghost var moves;
        ok, moves := leases.PinJob(job, ShardsOf(keys));
      }
    }

    /** The last reading once space has been looked for, if it has been: only a reserve is worth a look. */
    function ReadingIf(looked: bool, last: DiskReserve.Reading, now: real): DiskReserve.Reading
      reads disk
    {
      if looked && minFreeBytes > 0 then DiskReserve.Read(last, spaceCheckInterval, now, disk.free) else last
    }

    method RecordStoreJob(job: int, keys: seq<nat>)
      requires job !in storeJobKeys && job !in loadJobKeys
      requires Accounts(pool.running, {}, storeJobKeys.Keys, loadJobKeys.Keys)
      requires gate.storeJobs == storeJobKeys.Keys + {job} && storeJobReservedBytes.Keys == storeJobKeys.Keys
      requires leases.jobShards.Keys == storeJobKeys.Keys + loadJobKeys.Keys + {job}
      requires reservedStoreBytes == SumOf(storeJobReservedBytes)
      modifies this`storeJobKeys, this`storeJobReservedBytes, this`reservedStoreBytes
      ensures Booked({job})
      ensures storeJobKeys == old(storeJobKeys)[job := keys]
      ensures storeJobReservedBytes == old(storeJobReservedBytes)[job := |keys| * blockSize]
      ensures reservedStoreBytes == old(reservedStoreBytes) + |keys| * blockSize
    {
      var requiredBytes := |keys| * blockSize;
      SumSet(storeJobReservedBytes, job, requiredBytes);
      SumWithout(storeJobReservedBytes, job);
      hide SumOf;
      storeJobKeys := storeJobKeys[job := keys];
      storeJobReservedBytes := storeJobReservedBytes[job := requiredBytes];
      reservedStoreBytes := reservedStoreBytes + requiredBytes;
    }

    method ReleaseLeases(job: int)
      requires Fenced()
      modifies this`history, gate`storeJobs, gate`storeLeaseHeld, gate.locks
      modifies leases`sharedLockCounts, leases`sharedLockFds, leases`jobShards
      ensures old(history) <= history
      ensures Fenced()
      ensures gate.storeJobs == old(gate.storeJobs) - {job} && leases.jobShards == old(leases.jobShards) - {job}
    {
      hide EvictionGate.SharedEvictionGate.Valid, EvictionGate.Replay, EvolvedSurely;
      ghost var steps := leases.ReleaseJob(job);
      ReleaseStore(job);
    }

    /** Forget everything a job holds: it has finished, or the pool refused it. */
    method Settle(job: int, ghost collected: set<int>)
      requires Fenced() && Booked(collected) && job in collected
      modifies this`history, this`storeJobKeys, this`storeJobReservedBytes, this`reservedStoreBytes, this`loadJobKeys
      modifies gate`storeJobs, gate`storeLeaseHeld, gate.locks
      modifies leases`sharedLockCounts, leases`sharedLockFds, leases`jobShards
      ensures old(history) <= history
      ensures Fenced() && Booked(collected - {job})
      ensures storeJobKeys == old(storeJobKeys) - {job} && loadJobKeys == old(loadJobKeys) - {job}
      ensures storeJobReservedBytes == old(storeJobReservedBytes) - {job}
    {
      hide EvictionGate.SharedEvictionGate.Valid, SumOf, Accounts, Fenced;
      SumWithout(storeJobReservedBytes, job);
      SettledAccounts(pool.running, collected, storeJobKeys.Keys, loadJobKeys.Keys, job);
      KeysWithout(storeJobKeys, job);
      KeysWithout(loadJobKeys, job);
      KeysWithout(storeJobReservedBytes, job);
      KeysWithout(leases.jobShards, job);
      var reserved := if job in storeJobReservedBytes then storeJobReservedBytes[job] else 0;
      storeJobKeys, loadJobKeys := storeJobKeys - {job}, loadJobKeys - {job};
      storeJobReservedBytes := storeJobReservedBytes - {job};
      reservedStoreBytes := reservedStoreBytes - reserved;
      ReleaseLeases(job);
    }

    /** Hand a recorded job to the pool; on the pool's exception everything is undone. */
    method Start(job: int) returns (raised: bool)
      requires Fenced() && Booked({job}) && Tracked(pool.running) && job !in accepted
      modifies this`history, this`storeJobKeys, this`storeJobReservedBytes, this`reservedStoreBytes, this`loadJobKeys
      modifies this`accepted, pool
      modifies gate`storeJobs, gate`storeLeaseHeld, gate.locks
      modifies leases`sharedLockCounts, leases`sharedLockFds, leases`jobShards
      ensures old(history) <= history
      ensures Valid()
      ensures pool.running == old(pool.running) + if raised then {} else {job}
      ensures raised == !old(pool.Accepts())
      ensures accepted == old(accepted) + if raised then {} else {job}
      ensures raised ==> storeJobKeys == old(storeJobKeys) - {job} && loadJobKeys == old(loadJobKeys) - {job}
      ensures storeJobReservedBytes == old(storeJobReservedBytes) - if raised then {job} else {}
      ensures !raised ==> unchanged(`storeJobKeys, `loadJobKeys, `reservedStoreBytes, gate, leases)
    {
      hide EvictionGate.SharedEvictionGate.Valid, SumOf, Accounts, Reports, Fenced;
      StartedAccounts(pool.running, storeJobKeys.Keys, loadJobKeys.Keys, job);
      StartedReports(accepted, reported, pool.running, failedJobs, job);
      var ok := pool.Enqueue(job);
      raised := !ok;
      if raised {
        assert pool.running == old(pool.running);
        Settle(job, {job});
        assert {job} - {job} == {};
      } else {
        accepted := accepted + {job};
      }
    }

    /** A refused job waits to be reported as failed. */
    method Refuse(job: int)
      requires Tracked(pool.running) && job !in accepted
      modifies this`failedJobs, this`accepted
      ensures Tracked(pool.running) && failedJobs == old(failedJobs) + [job] && accepted == old(accepted) + {job}
    {
      StartedReports(accepted, reported, pool.running, failedJobs, job);
      failedJobs, accepted := failedJobs + [job], accepted + {job};
    }

    /** Submit a store. Accepted, it either runs, holding its leases and its reservation, or waits to
        be reported as failed, holding nothing; on an exception it is as if it had never been. */
    method SubmitStore(job: int, keys: seq<nat>, now: real, exists_: string -> bool, mtimeOf: Shard -> Option<int>,
                       ghost v: DiskReserve.Volume)
        returns (raised: bool, ghost events: seq<DiskReserve.Event>, ghost after: DiskReserve.Volume)
      requires Valid() && job !in accepted && Shows(v) && v.clock <= now
      modifies this, pool, worker, gate, gate.locks, leases, leases.kernel
      ensures old(history) <= history
      ensures Valid()
      ensures accepted == old(accepted) + (if raised then {} else {job}) && reported == old(reported)
      ensures failedJobs == old(failedJobs) + (if raised || job in pool.running then [] else [job])
      ensures job in pool.running ==> StoreRuns(job, keys, old(reservedStoreBytes))
      ensures job !in pool.running ==> job !in storeJobKeys
      ensures DiskReserve.Evolved(v, ReserveSettings(), events, after) && Shows(after) && after.clock <= now
      ensures job in pool.running ==>
                events != [] && events[|events| - 1] == DiskReserve.Admit(job, |keys| * blockSize, now)
      ensures triggerBytes == 0 && old(Admissible(job, keys, now) && pool.Accepts()) ==> job in pool.running
      ensures triggerBytes == 0 && old(Inadmissible(job, keys, now)) ==> job !in pool.running
    {
      hide Admissible, Inadmissible;
      hide EvictionGate.SharedEvictionGate.Valid, SumOf, Accounts, Reports, StoreRuns, DiskReserve.Evolved,
           DiskReserve.Read, DiskReserve.Next, Fenced;
      ghost var before, mid;
      before, mid := Housekeep(now, exists_, mtimeOf, v);
      raised, events, after := RunStore(job, keys, now, mid);
      DiskReserve.EvolvedOn(v, ReserveSettings(), before, mid, events, after);
      events := before + events;
    }

    /** What every submission of a store and every report begins with. */
    method Housekeep(now: real, exists_: string -> bool, mtimeOf: Shard -> Option<int>, ghost v: DiskReserve.Volume)
        returns (ghost events: seq<DiskReserve.Event>, ghost after: DiskReserve.Volume)
      requires Fenced() && Shows(v) && v.clock <= now
      modifies this`history, this`lastSpaceCheck, this`availableBytes, this`evictionActive, this`orphanTombstones
      modifies gate`ownsEviction, gate`writesFenced, gate.locks, worker, leases`evicting, leases`lastUsed, leases.kernel
      ensures old(history) <= history
      ensures Fenced()
      ensures DiskReserve.Evolved(v, ReserveSettings(), events, after) && Shows(after) && after.clock <= now
      ensures after.unwritten == v.unwritten
      ensures triggerBytes == 0 ==> unchanged(this, gate, gate.locks, worker, leases, leases.kernel)
    {
      hide EvictionGate.SharedEvictionGate.Valid, Evicts, Surviving;
      ghost var finished := DrainEvictions(mtimeOf);
      MaybeScheduleEviction(now, exists_);
      events, after := DiskReserve.Housekept(v, ReserveSettings(), finished != [], triggerBytes > 0, now);
    }

    /** A store in progress: space was reserved on top of all earlier reservations, and the gate
        admitted it, so this process does not own eviction. */
    ghost predicate StoreRuns(job: int, keys: seq<nat>, reservedBefore: int)
      reads this, gate, leases
    {
      && job in storeJobKeys && storeJobKeys[job] == keys
      && reservedStoreBytes == reservedBefore + |keys| * blockSize
      && (minFreeBytes > 0 ==> availableBytes - reservedStoreBytes >= minFreeBytes)
      && job in gate.storeJobs && gate.storeLeaseHeld && !gate.ownsEviction
      && job in leases.jobShards && leases.jobShards[job] == ShardsOf(keys)
    }

    /** Lease and record a store; refused, nothing has changed. */
    method AdmitStore(job: int, keys: seq<nat>, now: real) returns (admitted: bool, ghost looked: bool)
      requires Fenced() && Booked({}) && job !in pool.running
      modifies this`history, this`lastSpaceCheck, this`availableBytes, this`storeJobKeys, this`storeJobReservedBytes
      modifies this`reservedStoreBytes, gate`storeJobs, gate`storeLeaseHeld, gate.locks
      modifies leases`sharedLockCounts, leases`sharedLockFds, leases`jobShards, leases.kernel
      ensures old(history) <= history
      ensures Fenced() && Booked(if admitted then {job} else {})
      ensures admitted ==> StoreRuns(job, keys, old(reservedStoreBytes))
      ensures !admitted ==> unchanged(`storeJobKeys, `storeJobReservedBytes, `reservedStoreBytes)
      ensures admitted ==>
                && looked && storeJobReservedBytes == old(storeJobReservedBytes)[job := |keys| * blockSize]
                && DiskReserve.Covers(minFreeBytes, availableBytes, old(reservedStoreBytes), |keys| * blockSize)
      ensures LastReading() == ReadingIf(looked, old(LastReading()), now)
      ensures (old(Admissible(job, keys, now)) ==> admitted) && (old(Inadmissible(job, keys, now)) ==> !admitted)
    {
      hide EvictionGate.SharedEvictionGate.Valid, SumOf, ReadingIf, Admissible, Inadmissible;
      NotLeased(job);
      admitted, looked := LeaseStore(job, keys, now);
      if admitted {
        RecordStoreJob(job, keys);
      } else {
        assert gate.storeJobs == old(gate.storeJobs);
      }
    }

    lemma NotLeased(job: int)
      requires Booked({}) && job !in pool.running
      ensures job !in storeJobKeys && job !in loadJobKeys && job !in gate.storeJobs && job !in leases.jobShards
    {
    }

    /** Run a store or turn it away. */
    method PlaceStore(job: int, keys: seq<nat>, now: real)
        returns (raised: bool, ghost admitted: bool, ghost looked: bool)
      requires Valid() && job !in accepted
      modifies this, pool, gate`storeJobs, gate`storeLeaseHeld, gate.locks
      modifies leases`sharedLockCounts, leases`sharedLockFds, leases`jobShards, leases.kernel
      ensures old(history) <= history
      ensures Valid()
      ensures accepted == old(accepted) + (if raised then {} else {job}) && reported == old(reported)
      ensures failedJobs == old(failedJobs) + (if raised || job in pool.running then [] else [job])
      ensures job in pool.running ==> StoreRuns(job, keys, old(reservedStoreBytes))
      ensures job !in pool.running ==> job !in storeJobKeys
      ensures LastReading() == ReadingIf(looked, old(LastReading()), now)
      ensures admitted ==>
                && looked && (job in pool.running <==> !raised)
                && DiskReserve.Covers(minFreeBytes, availableBytes, old(reservedStoreBytes), |keys| * blockSize)
                && storeJobReservedBytes ==
                     old(storeJobReservedBytes)[job := |keys| * blockSize] - (if raised then {job} else {})
      ensures !admitted ==> !raised && job !in pool.running && storeJobReservedBytes == old(storeJobReservedBytes)
      ensures (old(Admissible(job, keys, now)) ==> admitted) && (old(Inadmissible(job, keys, now)) ==> !admitted)
      ensures raised ==> !old(pool.Accepts())
      ensures admitted && old(pool.Accepts()) ==> job in pool.running
    {
      hide EvictionGate.SharedEvictionGate.Valid, SumOf, ReadingIf, Fenced, Booked, Tracked, Admissible, Inadmissible;
      NotActive(job);
      NotLeased(job);
      var leased;
      leased, looked := AdmitStore(job, keys, now);
      admitted, raised := leased, false;
      if !leased {
        Refuse(job);
        return;
      }
      raised := Start(job);
      assert failedJobs == old(failedJobs) + [];
    }

    /** As far as the disk is concerned, a store that runs is an admission, one that the pool refused has been
        withdrawn again, and one that was turned away at most a look at the free space. */
    method RunStore(job: int, keys: seq<nat>, now: real, ghost v: DiskReserve.Volume)
        returns (raised: bool, ghost events: seq<DiskReserve.Event>, ghost after: DiskReserve.Volume)
      requires Valid() && job !in accepted && Shows(v) && v.clock <= now
      modifies this, pool, gate`storeJobs, gate`storeLeaseHeld, gate.locks
      modifies leases`sharedLockCounts, leases`sharedLockFds, leases`jobShards, leases.kernel
      ensures old(history) <= history
      ensures Valid()
      ensures accepted == old(accepted) + (if raised then {} else {job}) && reported == old(reported)
      ensures failedJobs == old(failedJobs) + (if raised || job in pool.running then [] else [job])
      ensures job in pool.running ==> StoreRuns(job, keys, old(reservedStoreBytes))
      ensures job !in pool.running ==> job !in storeJobKeys
      ensures DiskReserve.Evolved(v, ReserveSettings(), events, after) && Shows(after) && after.clock <= now
      ensures job in pool.running ==> events == [DiskReserve.Admit(job, |keys| * blockSize, now)]
      ensures old(Admissible(job, keys, now) && pool.Accepts()) ==> job in pool.running
      ensures old(Inadmissible(job, keys, now)) ==> job !in pool.running
    {
      hide Admissible, Inadmissible;
      hide EvictionGate.SharedEvictionGate.Valid, SumOf, Accounts, Reports, DiskReserve.Evolved, Tracked, Fenced,
           StoreRuns;
      NotActive(job);
      NotLeased(job);
      ghost var admitted, looked;
      raised, admitted, looked := PlaceStore(job, keys, now);
      if admitted {
        events, after := DiskReserve.Taken(v, ReserveSettings(), job, |keys| * blockSize, raised, now);
      } else {
        events, after := DiskReserve.TurnedAway(v, ReserveSettings(), looked, now);
      }
    }

    lemma NotActive(job: int)
      requires Tracked(pool.running) && job !in accepted
      ensures job !in pool.running
    {
    }

    /** Lease and record a load; its job leases take over from the request's lookup leases. */
    method AdmitLoad(job: int, keys: seq<nat>, req: string) returns (admitted: bool)
      requires Fenced() && Booked({}) && job !in pool.running
      modifies this`loadJobKeys
      modifies leases`sharedLockCounts, leases`sharedLockFds, leases`jobShards, leases`requestShards, leases.kernel
      ensures Fenced() && Booked(if admitted then {job} else {})
      ensures admitted ==> LoadRuns(job, keys)
      ensures !admitted ==> unchanged(`loadJobKeys)
      ensures leases.requestShards == old(leases.requestShards)[req := {}]
      ensures (forall s :: s in ShardsOf(keys) ==> old(leases.Surely(s))) ==> admitted
      ensures (exists s :: s in ShardsOf(keys) && old(leases.Hardly(s))) ==> !admitted
    {
      hide ShardLeaseIndex.Surely, ShardLeaseIndex.Hardly;
      hide EvictionGate.SharedEvictionGate.Valid, EvolvedSurely, SumOf, Accounts;
      NotLeased(job);
      NewLoadAccounts(pool.running, storeJobKeys.Keys, loadJobKeys.Keys, job);
      admitted := LeaseLoad(job, ShardsOf(keys), req);
      if admitted {
        loadJobKeys := loadJobKeys[job := keys];
        assert loadJobKeys.Keys == old(loadJobKeys.Keys) + {job};
        assert leases.jobShards.Keys == old(leases.jobShards.Keys) + {job};
      }
    }

    method LeaseLoad(job: int, shards: set<Shard>, req: string) returns (admitted: bool)
      requires job !in leases.jobShards
      modifies leases`sharedLockCounts, leases`sharedLockFds, leases`jobShards, leases`requestShards, leases.kernel
      ensures leases.jobShards == if admitted then old(leases.jobShards)[job := shards] else old(leases.jobShards)
      ensures leases.requestShards == old(leases.requestShards)[req := {}]
      ensures (forall s :: s in shards ==> old(leases.Surely(s))) ==> admitted
      ensures (exists s :: s in shards && old(leases.Hardly(s))) ==> !admitted
    {
      hide EvolvedSurely, ShardLeaseIndex.Surely, ShardLeaseIndex.Hardly;
      ghost var moves, released;
      admitted, moves := leases.PinJob(job, shards);
      released := leases.ReleaseRequestPins(req);
    }

    ghost predicate LoadRuns(job: int, keys: seq<nat>)
      reads this, leases
    {
      && job in loadJobKeys && loadJobKeys[job] == keys
      && job in leases.jobShards && leases.jobShards[job] == ShardsOf(keys)
    }

    /** Submit a load. Refused, the cached hits that promised its keys are destroyed. */
    method SubmitLoad(job: int, keys: seq<nat>, req: string) returns (raised: bool)
      requires Valid() && job !in accepted
      modifies this, pool, gate`storeJobs, gate`storeLeaseHeld, gate.locks
      modifies leases`sharedLockCounts, leases`sharedLockFds, leases`jobShards, leases`requestShards, leases.kernel
      ensures old(history) <= history
      ensures Valid()
      ensures accepted == old(accepted) + (if raised then {} else {job}) && reported == old(reported)
      ensures failedJobs == old(failedJobs) + (if raised || job in pool.running then [] else [job])
      ensures job in pool.running ==> LoadRuns(job, keys)
      ensures job !in pool.running ==> job !in loadJobKeys
      ensures invalidated == old(invalidated) + if !raised && job !in pool.running then (set k | k in keys) else {}
      ensures leases.requestShards == old(leases.requestShards)[req := {}]
      ensures (forall s :: s in ShardsOf(keys) ==> old(leases.Surely(s))) && old(pool.Accepts()) ==> job in pool.running
      ensures (exists s :: s in ShardsOf(keys) && old(leases.Hardly(s))) ==> job !in pool.running
    {
      hide ShardLeaseIndex.Surely, ShardLeaseIndex.Hardly;
      hide EvictionGate.SharedEvictionGate.Valid, SumOf, Fenced, Booked, Tracked;
      NotActive(job);
      NotLeased(job);
      var admitted := AdmitLoad(job, keys, req);
      if !admitted {
        invalidated := invalidated + set k | k in keys;
        Refuse(job);
        return false;
      }
      raised := Start(job);
      assert failedJobs == old(failedJobs) + [];
    }

    /** The shard times after a store and a load: those stored are the newest, those loaded are renewed if they
        are known and not under eviction. */
    ghost function Renewed(stored: seq<nat>, loaded: seq<nat>, now: int): (used: map<Shard, int>)
      reads leases`lastUsed, leases`evicting
      ensures forall s :: s in used <==> s in leases.lastUsed || s in ShardsOf(stored)
      ensures forall s :: s in used ==>
                used[s] == if s in ShardsOf(stored) || (s in ShardsOf(loaded) && s !in leases.evicting) then now
                           else leases.lastUsed[s]
    {
      var written, read := ShardsOf(stored), ShardsOf(loaded);
      var used := leases.lastUsed + map s | s in written :: now;
      used + map s | s in read && s in used && s !in leases.evicting :: now
    }

    ghost function KeysOf(job: int, jobs: map<int, seq<nat>>): seq<nat> {
      if job in jobs then jobs[job] else []
    }

    /** Account for one finished job. */
    method Collect(done: JobResult, now: int, ghost collected: set<int>)
      requires Fenced() && Booked(collected) && done.job in collected
      modifies this`history, this`storeJobKeys, this`storeJobReservedBytes, this`reservedStoreBytes, this`loadJobKeys
      modifies this`invalidated, gate`storeJobs, gate`storeLeaseHeld, gate.locks
      modifies leases`sharedLockCounts, leases`sharedLockFds, leases`jobShards, leases`lastUsed
      ensures old(history) <= history
      ensures Fenced() && Booked(collected - {done.job})
      ensures invalidated == old(invalidated) +
                if !done.success && done.job in old(loadJobKeys) then (set k | k in old(loadJobKeys)[done.job]) else {}
      ensures storeJobKeys == old(storeJobKeys) - {done.job} && loadJobKeys == old(loadJobKeys) - {done.job}
      ensures storeJobReservedBytes == old(storeJobReservedBytes) - {done.job}
      ensures leases.lastUsed == if !done.success then old(leases.lastUsed)
                                 else old(Renewed(KeysOf(done.job, storeJobKeys), KeysOf(done.job, loadJobKeys), now))
    {
      hide EvictionGate.SharedEvictionGate.Valid, SumOf, Accounts, Renewed, Fenced;
      var stored := if done.job in storeJobKeys then storeJobKeys[done.job] else [];
      var isLoad := done.job in loadJobKeys;
      var loaded := if isLoad then loadJobKeys[done.job] else [];
      Settle(done.job, collected);
      if done.success {
        RecordUse(stored, loaded, now);
      } else if isLoad {
        invalidated := invalidated + set k | k in loaded;
      }
    }

    method RecordUse(stored: seq<nat>, loaded: seq<nat>, now: int)
      requires Fenced()
      modifies leases`lastUsed
      ensures Fenced() && leases.lastUsed == old(Renewed(stored, loaded, now))
    {
      hide EvictionGate.SharedEvictionGate.Valid;
      leases.RecordStore(ShardsOf(stored), now);
      leases.RecordAccess(ShardsOf(loaded), now);
    }

    /** Report every failed and every finished job, each once; afterwards none of them holds a store
        lease, a shard lease or a reservation. */
    method GetFinishedJobs(now: real, time: int, exists_: string -> bool, mtimeOf: Shard -> Option<int>,
                           ghost v: DiskReserve.Volume)
        returns (results: seq<JobResult>, ghost done: seq<JobResult>, ghost events: seq<DiskReserve.Event>,
                 ghost after: DiskReserve.Volume)
      requires Valid() && Shows(v) && v.clock <= now
      modifies this, pool, worker, gate, gate.locks, leases, leases.kernel
      ensures old(history) <= history
      ensures Outcomes(results, old(failedJobs), done, old(pool.completions))
      ensures invalidated == old(invalidated) + FailedKeys(done, old(loadJobKeys))
      ensures Valid() && failedJobs == [] && accepted == old(accepted)
      ensures Distinct(results) && JobsOf(results) !! old(reported)
      ensures JobsOf(results) == (set j | j in old(failedJobs)) + (old(pool.running) - pool.running)
      ensures reported == old(reported) + JobsOf(results) && pool.running <= old(pool.running)
      ensures HoldNothing(JobsOf(results))
      ensures forall i :: 0 <= i < |old(failedJobs)| ==> JobResult(old(failedJobs)[i], false) in results
      ensures forall r :: r in results && r.success ==> r in done
      ensures DiskReserve.Evolved(v, ReserveSettings(), events, after) && Shows(after) && after.clock <= now
    {
      hide EvictionGate.SharedEvictionGate.Valid, SumOf, Accounts, Reports, JobsOf, Distinct, FailedKeys, Outcomes,
           DiskReserve.Evolved, DiskReserve.Next, Fenced, HoldNothing, Booked, Tracked;
      ghost var mid;
      events, mid := Housekeep(now, exists_, mtimeOf, v);
      results, done := ReportFinished(time);
      FailuresAreTold(results, old(failedJobs), done, old(pool.completions));
      ReportedHoldNothing(JobsOf(results));
      ghost var more;
      more, after := Settled(mid, ReserveSettings(), done);
      DiskReserve.EvolvedOn(v, ReserveSettings(), events, mid, more, after);
      events := events + more;
    }

    method ReportFinished(time: int) returns (results: seq<JobResult>, ghost done: seq<JobResult>)
      requires Valid()
      ensures Outcomes(results, old(failedJobs), done, old(pool.completions))
      ensures invalidated == old(invalidated) + FailedKeys(done, old(loadJobKeys))
      modifies this`history, this`storeJobKeys, this`storeJobReservedBytes, this`reservedStoreBytes, this`loadJobKeys
      modifies this`invalidated, this`failedJobs, this`reported, gate`storeJobs, gate`storeLeaseHeld, gate.locks, pool
      modifies leases`sharedLockCounts, leases`sharedLockFds, leases`jobShards, leases`lastUsed
      ensures old(history) <= history
      ensures Valid() && failedJobs == []
      ensures Distinct(results) && JobsOf(results) !! old(reported)
      ensures JobsOf(results) == (set j | j in old(failedJobs)) + (old(pool.running) - pool.running)
      ensures reported == old(reported) + JobsOf(results) && pool.running <= old(pool.running)
      ensures storeJobReservedBytes == old(storeJobReservedBytes) - JobsOf(done) && Distinct(done)
    {
      hide EvictionGate.SharedEvictionGate.Valid, SumOf, Accounts, Reports, JobsOf, Distinct, FailedKeys;
      var finished := pool.GetFinished();
      done := finished;
      ReportedOnce(accepted, reported, old(pool.running), failedJobs, finished);
      results := Failures(failedJobs) + finished;
      failedJobs, reported := [], reported + JobsOf(results);
      CollectedAccounts(old(pool.running), JobsOf(finished), storeJobKeys.Keys, loadJobKeys.Keys);
      CollectAll(finished, time);
      assert old(pool.running) - pool.running == JobsOf(finished);
    }

    ghost predicate HoldNothing(jobs: set<int>)
      reads this, gate, leases
    {
      jobs !! gate.storeJobs && jobs !! leases.jobShards.Keys && jobs !! storeJobReservedBytes.Keys
    }

    lemma ReportedHoldNothing(jobs: set<int>)
      requires Booked({}) && Tracked(pool.running) && jobs <= reported
      ensures HoldNothing(jobs)
    {
    }

    method CollectAll(done: seq<JobResult>, time: int)
      requires Fenced() && Booked(JobsOf(done)) && Distinct(done)
      modifies this`history, this`storeJobKeys, this`storeJobReservedBytes, this`reservedStoreBytes, this`loadJobKeys
      modifies this`invalidated, gate`storeJobs, gate`storeLeaseHeld, gate.locks
      modifies leases`sharedLockCounts, leases`sharedLockFds, leases`jobShards, leases`lastUsed
      ensures old(history) <= history
      ensures Fenced() && Booked({})
      ensures invalidated == old(invalidated) + FailedKeys(done, old(loadJobKeys))
      ensures storeJobReservedBytes == old(storeJobReservedBytes) - JobsOf(done)
    {
      hide EvictionGate.SharedEvictionGate.Valid, SumOf, Accounts, Distinct, JobsOf, Booked, Fenced, FailedKeys;
      assert done[0..] == done && done[..0] == [];
      NoJobs();
      NoFailures(old(loadJobKeys));
      for i := 0 to |done|
        invariant old(history) <= history
        invariant Fenced() && Booked(JobsOf(done[i..])) && loadJobKeys == old(loadJobKeys) - JobsOf(done[..i])
        invariant storeJobReservedBytes == old(storeJobReservedBytes) - JobsOf(done[..i])
        invariant invalidated == old(invalidated) + FailedKeys(done[..i], old(loadJobKeys))
      {
        FirstJob(done[i..], done, i);
        NextFailed(done, i, old(loadJobKeys));
        Collect(done[i], time, JobsOf(done[i..]));
      }
      assert done[|done|..] == [] && done[..|done|] == done;
    }

    /** Among the host's processes this manager is where its own steps have taken it; so while it has a deletion
        outstanding no process has an admitted store, and no other process deletes. */
    lemma DeletesAlone(actions: seq<EvictionProtocol.Action>)
      requires Fenced() && EvictionProtocol.Legal(EvictionProtocol.BOOTED, actions)
      requires gate.pid in EvictionProtocol.Exec(EvictionProtocol.BOOTED, actions).procs
      requires EvictionProtocol.Own(gate.pid, [], actions) == history
      ensures var procs := EvictionProtocol.Exec(EvictionProtocol.BOOTED, actions).procs;
              && procs[gate.pid] == Manager()
              && (worker.queue != [] ==>
                    forall other :: other in procs ==>
                      procs[other].gate.jobs == {} && (other != gate.pid ==> !procs[other].Deleting()))
    {
      EvictionProtocol.ProcessesFollowManagers(actions, gate.pid);
      EvictionProtocol.RunsExclude(actions);
    }
  }
}
