/** The disk reserve of the filesystem tier over whole runs: stores are admitted against a reading of the
    free space, which is used again for a while, and against the reservations of unfinished stores; they
    write their bytes in any order, and complete, which releases their reservations.
 */
module DiskReserve {
  import opened Sums

  /** The bytes to keep free, none if zero, and how long a reading of the free space is used again. */
  datatype Settings = Settings(minFree: nat, interval: real) {
    predicate Valid() {
      interval >= 0.0
    }
  }

  /** The last reading of the free space; one of time zero counts as none. */
  datatype Reading = Reading(bytes: int, at: real)

  /** The guard under which the last reading is used again. */
  predicate Cached(r: Reading, interval: real, now: real) {
    r.at != 0.0 && now - r.at < interval
  }

  function Read(r: Reading, interval: real, now: real, free: int): Reading {
    if Cached(r, interval, now) then r else Reading(free, now)
  }

  /** The guard under which a store of some bytes is admitted. */
  predicate Covers(minFree: nat, reading: int, reserved: int, bytes: int) {
    minFree == 0 || reading - reserved - bytes >= minFree
  }

  /** The volume: what is free, and per unfinished store what it reserved and what of that is unwritten. Also
      what has become of the free space since the reading: per unfinished store the bytes it had written
      before, the bytes stores completed since have written since, and what others have freed since, less
      what they have taken. */
  datatype Volume = Volume(free: int, clock: real, reading: Reading, unwritten: map<int, int>, reserved: map<int, int>,
                           before: map<int, int>, lost: int, others: int)

  function Started(free: int, clock: real): Volume {
    Volume(free, clock, Reading(0, 0.0), map[], map[], map[], 0, 0)
  }

  datatype Event =
    | Admit(job: int, bytes: int, now: real)
    | Look(now: real)
    | Forget
    | Write(job: int, bytes: int)
    | Complete(job: int)
    | Others(change: int)

  /** The volume once the free space has been looked up. */
  function Looked(v: Volume, cfg: Settings, now: real): Volume {
    if Cached(v.reading, cfg.interval, now) then v.(clock := now)
    else v.(clock := now, reading := Reading(v.free, now), before := WrittenBy(v), lost := 0, others := 0)
  }

  /** What each unfinished store has written. */
  function WrittenBy(v: Volume): map<int, int> {
    map job | job in v.reserved && job in v.unwritten :: v.reserved[job] - v.unwritten[job]
  }

  /** An admission looks up the free space, if there is a reserve to keep. */
  function Considered(v: Volume, cfg: Settings, now: real): Volume {
    if cfg.minFree == 0 then v.(clock := now) else Looked(v, cfg, now)
  }

  ghost predicate Enabled(v: Volume, cfg: Settings, e: Event) {
    match e
    case Admit(job, bytes, now) =>
      && job !in v.reserved && bytes >= 0 && v.clock <= now
      && Covers(cfg.minFree, Considered(v, cfg, now).reading.bytes, SumOf(v.reserved), bytes)
    case Look(now) => v.clock <= now
    case Forget => true
    case Write(job, bytes) => job in v.unwritten && 0 <= bytes <= v.unwritten[job]
    case Complete(job) => job in v.reserved
    case Others(_) => true
  }

  function At(m: map<int, int>, job: int): int {
    if job in m then m[job] else 0
  }

  function Next(v: Volume, cfg: Settings, e: Event): Volume {
    match e
    case Admit(job, bytes, now) =>
      var w := Considered(v, cfg, now);
      w.(unwritten := w.unwritten[job := bytes], reserved := w.reserved[job := bytes], before := w.before[job := 0])
    case Look(now) => Looked(v, cfg, now)
    case Forget => v.(reading := v.reading.(at := 0.0))
    case Write(job, bytes) =>
      v.(free := v.free - bytes, unwritten := v.unwritten[job := At(v.unwritten, job) - bytes])
    case Complete(job) =>
      v.(unwritten := v.unwritten - {job}, reserved := v.reserved - {job}, before := v.before - {job},
         lost := v.lost + At(v.reserved, job) - At(v.unwritten, job) - At(v.before, job))
    case Others(change) => v.(free := v.free + change, others := v.others + change)
  }

  ghost predicate Legal(v: Volume, cfg: Settings, events: seq<Event>)
    decreases |events|
  {
    events == [] || (Enabled(v, cfg, events[0]) && Legal(Next(v, cfg, events[0]), cfg, events[1..]))
  }

  function Exec(v: Volume, cfg: Settings, events: seq<Event>): Volume
    decreases |events|
  {
    if events == [] then v else Exec(Next(v, cfg, events[0]), cfg, events[1..])
  }

  /** A run leads from one volume to another. */
  ghost predicate Evolved(v: Volume, cfg: Settings, events: seq<Event>, now: Volume) {
    Legal(v, cfg, events) && Exec(v, cfg, events) == now
  }

  lemma {:induction false} EvolvedOn(v: Volume, cfg: Settings, first: seq<Event>, mid: Volume, rest: seq<Event>,
                                     now: Volume)
    requires Evolved(v, cfg, first, mid) && Evolved(mid, cfg, rest, now)
    ensures Evolved(v, cfg, first + rest, now)
    decreases |first|
  {
    hide Enabled, Next;
    if first == [] {
      assert first + rest == rest;
    } else {
      EvolvedOn(Next(v, cfg, first[0]), cfg, first[1..], mid, rest, now);
      assert (first + rest)[1..] == first[1..] + rest;
    }
  }

  lemma EvolvedOne(v: Volume, cfg: Settings, e: Event)
    requires Enabled(v, cfg, e)
    ensures Evolved(v, cfg, [e], Next(v, cfg, e))
  {
    hide Enabled, Next;
    var next := Next(v, cfg, e);
    assert [e][0] == e && [e][1..] == [];
    assert Legal(next, cfg, []) && Exec(next, cfg, []) == next;
  }

  /** Before anything else a tier forgets the reading, if a deletion has finished, and takes one, if it evicts. */
  lemma Housekept(v: Volume, cfg: Settings, forgets: bool, looks: bool, now: real)
    returns (events: seq<Event>, after: Volume)
    requires v.clock <= now
    ensures Evolved(v, cfg, events, after) && after.clock <= now
    ensures after.free == v.free && after.reserved == v.reserved && after.unwritten == v.unwritten
    ensures var last := if forgets then v.reading.(at := 0.0) else v.reading;
            after.reading == if looks then Read(last, cfg.interval, now, v.free) else last
  {
    var mid, first: seq<Event> := v, [];
    if forgets {
      mid, first := Next(v, cfg, Forget), [Forget];
      EvolvedOne(v, cfg, Forget);
    }
    var rest: seq<Event> := [];
    after := mid;
    if looks {
      after, rest := Next(mid, cfg, Look(now)), [Look(now)];
      EvolvedOne(mid, cfg, Look(now));
    }
    EvolvedOn(v, cfg, first, mid, rest, after);
    events := first + rest;
  }

  /** A store that is turned away: at most a look at the free space. */
  lemma TurnedAway(v: Volume, cfg: Settings, looked: bool, now: real) returns (events: seq<Event>, after: Volume)
    requires v.clock <= now
    ensures Evolved(v, cfg, events, after) && after.clock <= now
    ensures after.free == v.free && after.reserved == v.reserved
    ensures after.reading == if looked && cfg.minFree > 0 then Read(v.reading, cfg.interval, now, v.free) else v.reading
  {
    events, after := [], v;
    if looked && cfg.minFree > 0 {
      EvolvedOne(v, cfg, Look(now));
      events, after := [Look(now)], Next(v, cfg, Look(now));
    }
  }

  /** A store that is admitted, and perhaps withdrawn before it has written anything. */
  lemma Taken(v: Volume, cfg: Settings, job: int, bytes: int, withdrawn: bool, now: real)
    returns (events: seq<Event>, after: Volume)
    requires v.clock <= now && job !in v.reserved && bytes >= 0
    requires var last := if cfg.minFree > 0 then Read(v.reading, cfg.interval, now, v.free) else v.reading;
             Covers(cfg.minFree, last.bytes, SumOf(v.reserved), bytes)
    ensures Evolved(v, cfg, events, after) && after.clock <= now && after.free == v.free
    ensures after.reserved == if withdrawn then v.reserved[job := bytes] - {job} else v.reserved[job := bytes]
    ensures after.reading == if cfg.minFree > 0 then Read(v.reading, cfg.interval, now, v.free) else v.reading
    ensures !withdrawn ==> events == [Admit(job, bytes, now)]
  {
    hide SumOf;
    var e := Admit(job, bytes, now);
    EvolvedOne(v, cfg, e);
    events, after := [e], Next(v, cfg, e);
    if withdrawn {
      var mid := after;
      EvolvedOne(mid, cfg, Complete(job));
      after := Next(mid, cfg, Complete(job));
      EvolvedOn(v, cfg, [e], mid, [Complete(job)], after);
      events := [e] + [Complete(job)];
    }
  }

  // ----- every reachable volume

  /** Bytes are written before and after the reading, and nothing is written that was not reserved. */
  ghost predicate Within(v: Volume) {
    && v.unwritten.Keys == v.reserved.Keys == v.before.Keys
    && (forall job :: job in v.reserved ==>
          && 0 <= v.unwritten[job] <= v.reserved[job]
          && 0 <= v.before[job] <= v.reserved[job] - v.unwritten[job])
  }

  /** The reading differs from the free space by what unfinished stores have written since, what completed
      ones have, and what others have freed. */
  ghost predicate Balanced(v: Volume) {
    v.reading.bytes - v.free ==
      SumOf(v.reserved) - SumOf(v.unwritten) - SumOf(v.before) + v.lost - v.others
  }

  ghost predicate Inv(v: Volume) {
    && Within(v) && 0.0 <= v.clock && v.reading.at <= v.clock && v.lost >= 0
    && (v.reading.at != 0.0 ==> Balanced(v))
  }

  lemma WithinAt(v: Volume, job: int)
    requires Within(v)
    ensures 0 <= At(v.unwritten, job) <= At(v.reserved, job)
    ensures 0 <= At(v.before, job) <= At(v.reserved, job) - At(v.unwritten, job)
  {
  }

  lemma SumAt(m: map<int, int>, job: int, x: int)
    ensures SumOf(m[job := x]) == SumOf(m) - At(m, job) + x
    ensures SumOf(m - {job}) == SumOf(m) - At(m, job)
  {
    SumSet(m, job, x);
    SumWithout(m, job);
  }

  /** What the unfinished stores have written is what they reserved, less what they have yet to write. */
  lemma {:induction false} SumWritten(reserved: map<int, int>, unwritten: map<int, int>, written: map<int, int>)
    requires reserved.Keys == unwritten.Keys == written.Keys
    requires forall job :: job in reserved ==> written[job] == reserved[job] - unwritten[job]
    ensures SumOf(written) == SumOf(reserved) - SumOf(unwritten)
    decreases |reserved|
  {
    if reserved == map[] {
      assert unwritten.Keys == {} && written.Keys == {};
      assert unwritten == map[] && written == map[];
    } else {
      var job := SomeKey(reserved);
      SumPick(reserved, job);
      SumPick(unwritten, job);
      SumPick(written, job);
      Smaller(reserved, job);
      SumWritten(reserved - {job}, unwritten - {job}, written - {job});
    }
  }

  lemma LookedInv(v: Volume, cfg: Settings, now: real)
    requires Inv(v) && v.clock <= now
    ensures Inv(Looked(v, cfg, now)) && Balanced(Looked(v, cfg, now))
  {
    hide SumOf;
    if !Cached(v.reading, cfg.interval, now) {
      SumWritten(v.reserved, v.unwritten, WrittenBy(v));
    }
  }

  lemma ConsideredInv(v: Volume, cfg: Settings, now: real)
    requires Inv(v) && v.clock <= now
    ensures var w := Considered(v, cfg, now);
            Inv(w) && w.reserved == v.reserved && w.unwritten == v.unwritten && w.free == v.free
    ensures cfg.minFree > 0 ==> Balanced(Considered(v, cfg, now))
  {
    hide SumOf;
    LookedInv(v, cfg, now);
  }

  lemma AdmitInv(v: Volume, job: int, bytes: int)
    requires Inv(v) && job !in v.reserved && bytes >= 0
    ensures Inv(v.(unwritten := v.unwritten[job := bytes], reserved := v.reserved[job := bytes],
                   before := v.before[job := 0]))
  {
    hide SumOf;
    SumAt(v.unwritten, job, bytes);
    SumAt(v.reserved, job, bytes);
    SumAt(v.before, job, 0);
  }

  lemma WriteInv(v: Volume, cfg: Settings, job: int, bytes: int)
    requires Inv(v) && Enabled(v, cfg, Write(job, bytes))
    ensures Inv(Next(v, cfg, Write(job, bytes)))
  {
    hide SumOf;
    SumAt(v.unwritten, job, v.unwritten[job] - bytes);
  }

  lemma CompleteInv(v: Volume, cfg: Settings, job: int)
    requires Inv(v)
    ensures Inv(Next(v, cfg, Complete(job)))
  {
    hide SumOf;
    WithinAt(v, job);
    SumAt(v.unwritten, job, 0);
    SumAt(v.reserved, job, 0);
    SumAt(v.before, job, 0);
  }

  lemma NextInv(v: Volume, cfg: Settings, e: Event)
    requires Inv(v) && Enabled(v, cfg, e)
    ensures Inv(Next(v, cfg, e))
  {
    hide SumOf, Within, Balanced;
    match e {
      case Admit(job, bytes, now) =>
        ConsideredInv(v, cfg, now);
        AdmitInv(Considered(v, cfg, now), job, bytes);
      case Look(now) => LookedInv(v, cfg, now);
      case Forget => WithinSame(v, Next(v, cfg, e));
      case Write(job, bytes) => WriteInv(v, cfg, job, bytes);
      case Complete(job) => CompleteInv(v, cfg, job);
      case Others(change) => OthersInv(v, change);
    }
  }

  lemma WithinSame(v: Volume, w: Volume)
    requires Within(v) && w.unwritten == v.unwritten && w.reserved == v.reserved && w.before == v.before
    ensures Within(w)
  {
  }

  lemma OthersInv(v: Volume, change: int)
    requires Inv(v)
    ensures Inv(v.(free := v.free + change, others := v.others + change))
  {
    hide SumOf;
  }

  lemma {:induction false} RunInv(v: Volume, cfg: Settings, events: seq<Event>)
    requires Inv(v) && Legal(v, cfg, events)
    ensures Inv(Exec(v, cfg, events))
    decreases |events|
  {
    hide Inv, Enabled, Next;
    if events != [] {
      NextInv(v, cfg, events[0]);
      RunInv(Next(v, cfg, events[0]), cfg, events[1..]);
    }
  }

  lemma StartedInv(free: int, clock: real)
    requires clock >= 0.0
    ensures Inv(Started(free, clock))
  {
  }

  // ----- what an admission does to the reserve

  /** Nothing is admitted, and nobody else takes space. */
  predicate Quiet(events: seq<Event>) {
    forall i :: 0 <= i < |events| ==> !events[i].Admit? && (events[i].Others? ==> events[i].change >= 0)
  }

  /** The reserve is kept whatever becomes of the stores already admitted. */
  ghost predicate KeepsReserve(v: Volume, cfg: Settings) {
    forall events :: Legal(v, cfg, events) && Quiet(events) ==> Exec(v, cfg, events).free >= cfg.minFree
  }

  /** All that the unfinished stores have yet to write leaves so much free. */
  ghost predicate Spared(v: Volume, bytes: int) {
    v.free - SumOf(v.unwritten) >= bytes
  }

  lemma NextSpared(v: Volume, cfg: Settings, e: Event, bytes: int)
    requires Inv(v) && Enabled(v, cfg, e) && Quiet([e]) && Spared(v, bytes)
    ensures Spared(Next(v, cfg, e), bytes)
  {
    hide SumOf, Balanced, Enabled;
    assert [e][0] == e;
    match e {
      case Admit(_, _, _) => assert false;
      case Look(_) =>
      case Forget =>
      case Write(job, bytes) =>
        SumAt(v.unwritten, job, At(v.unwritten, job) - bytes);
      case Complete(job) =>
        WithinAt(v, job);
        SumAt(v.unwritten, job, 0);
      case Others(_) =>
    }
  }

  lemma SparedIsFree(v: Volume, bytes: int)
    requires Inv(v) && Spared(v, bytes)
    ensures v.free >= bytes
  {
    hide SumOf, Balanced;
    SumMonotone(v.unwritten, v.reserved);
  }

  lemma {:induction false} QuietSpares(v: Volume, cfg: Settings, events: seq<Event>, bytes: int)
    requires Inv(v) && Legal(v, cfg, events) && Quiet(events) && Spared(v, bytes)
    ensures Exec(v, cfg, events).free >= bytes
    decreases |events|
  {
    hide Inv, Enabled, Next, Spared;
    if events == [] {
      SparedIsFree(v, bytes);
    } else {
      assert [events[0]][0] == events[0];
      NextInv(v, cfg, events[0]);
      NextSpared(v, cfg, events[0], bytes);
      QuietSpares(Next(v, cfg, events[0]), cfg, events[1..], bytes);
    }
  }

  /** The stores may write all they have reserved. */
  lemma {:induction false} WriteOut(v: Volume, cfg: Settings, left: map<int, int>) returns (events: seq<Event>)
    requires forall job :: job in left ==> job in v.unwritten && v.unwritten[job] == left[job] >= 0
    ensures Legal(v, cfg, events) && Quiet(events)
    ensures Exec(v, cfg, events).free == v.free - SumOf(left)
    decreases |left|
  {
    events := [];
    if left != map[] {
      var job := SomeKey(left);
      var e := Write(job, left[job]);
      SumPick(left, job);
      Smaller(left, job);
      var rest := WriteOut(Next(v, cfg, e), cfg, left - {job});
      events := [e] + rest;
      assert events[1..] == rest;
    }
  }

  /** The reserve is safe with the stores already admitted if and only if all they have yet to write would
      leave it free. */
  lemma KeepsReserveIff(v: Volume, cfg: Settings)
    requires Inv(v)
    ensures KeepsReserve(v, cfg) <==> Spared(v, cfg.minFree)
  {
    if Spared(v, cfg.minFree) {
      forall events | Legal(v, cfg, events) && Quiet(events) ensures Exec(v, cfg, events).free >= cfg.minFree {
        QuietSpares(v, cfg, events, cfg.minFree);
      }
    } else {
      var events := WriteOut(v, cfg, v.unwritten);
    }
  }

  /** What a reading, less all reservations and the store, leaves beyond the reserve. */
  ghost function Slack(v: Volume, cfg: Settings, bytes: int): int {
    v.reading.bytes - SumOf(v.reserved) - bytes - cfg.minFree
  }

  /** When an admission is in time: the reading is taken afresh; or what stores have written since it was taken
      and no longer hold reserved, as they have completed, is made up for: by what others have freed, by what
      unfinished stores had written, and still hold reserved, when the reading was taken, and by what the
      reading leaves beyond the reserve. */
  ghost predicate Timely(v: Volume, cfg: Settings, bytes: int, now: real) {
    !Cached(v.reading, cfg.interval, now) || v.lost <= v.others + SumOf(v.before) + Slack(v, cfg, bytes)
  }

  /** After an admission the stores admitted leave the reserve free if and only if it was in time. */
  lemma AdmissionSparesIff(v: Volume, cfg: Settings, job: int, bytes: int, now: real)
    requires Inv(v) && cfg.minFree > 0 && Enabled(v, cfg, Admit(job, bytes, now))
    ensures Spared(Next(v, cfg, Admit(job, bytes, now)), cfg.minFree) <==>
              v.free - SumOf(v.unwritten) - bytes >= cfg.minFree
    ensures Spared(Next(v, cfg, Admit(job, bytes, now)), cfg.minFree) <==> Timely(v, cfg, bytes, now)
  {
    hide SumOf;
    SumAt(v.unwritten, job, bytes);
    if !Cached(v.reading, cfg.interval, now) {
      SumMonotone(v.unwritten, v.reserved);
    }
  }

  /** In every reachable volume: an admission keeps the reserve, whatever becomes of the stores, if and only if
      all that is yet to be written, and the store, leave it free; and that is so if and only if the admission
      was in time. */
  lemma AdmissionKeepsIff(free: int, clock: real, cfg: Settings, events: seq<Event>, job: int, bytes: int, now: real)
    requires clock >= 0.0 && cfg.minFree > 0 && Legal(Started(free, clock), cfg, events)
    requires Enabled(Exec(Started(free, clock), cfg, events), cfg, Admit(job, bytes, now))
    ensures var v := Exec(Started(free, clock), cfg, events);
            && (KeepsReserve(Next(v, cfg, Admit(job, bytes, now)), cfg) <==>
                  v.free - SumOf(v.unwritten) - bytes >= cfg.minFree)
            && (KeepsReserve(Next(v, cfg, Admit(job, bytes, now)), cfg) <==> Timely(v, cfg, bytes, now))
  {
    hide Inv, Enabled, Next, KeepsReserve, Timely, SumOf;
    var v := Exec(Started(free, clock), cfg, events);
    StartedInv(free, clock);
    RunInv(Started(free, clock), cfg, events);
    NextInv(v, cfg, Admit(job, bytes, now));
    KeepsReserveIff(Next(v, cfg, Admit(job, bytes, now)), cfg);
    AdmissionSparesIff(v, cfg, job, bytes, now);
  }

  /** A stale reading alone does no harm: as long as no store has completed and nobody else has taken space
      since it was taken, an admission is in time. */
  lemma NothingReleased(v: Volume, cfg: Settings, job: int, bytes: int, now: real)
    requires Inv(v) && cfg.minFree > 0 && Enabled(v, cfg, Admit(job, bytes, now))
    requires v.lost == 0 && v.others >= 0
    ensures Timely(v, cfg, bytes, now)
  {
    hide SumOf;
    SumMonotone(v.before, v.reserved);
  }

  // ----- whole runs

  /** Every admission of a run is in time. */
  ghost predicate AllTimely(v: Volume, cfg: Settings, events: seq<Event>)
    decreases |events|
  {
    events == [] ||
    ((events[0].Admit? ==> Timely(v, cfg, events[0].bytes, events[0].now))
     && AllTimely(Next(v, cfg, events[0]), cfg, events[1..]))
  }

  /** After every admission of a run the reserve is kept, whatever becomes of the stores. */
  ghost predicate AllKeep(v: Volume, cfg: Settings, events: seq<Event>)
    decreases |events|
  {
    events == [] ||
    ((events[0].Admit? ==> KeepsReserve(Next(v, cfg, events[0]), cfg))
     && AllKeep(Next(v, cfg, events[0]), cfg, events[1..]))
  }

  lemma {:induction false} AllKeepIff(v: Volume, cfg: Settings, events: seq<Event>)
    requires Inv(v) && cfg.minFree > 0 && Legal(v, cfg, events)
    ensures AllKeep(v, cfg, events) <==> AllTimely(v, cfg, events)
    decreases |events|
  {
    hide Inv, Enabled, Next, KeepsReserve, Timely, Spared;
    if events != [] {
      var e := events[0];
      NextInv(v, cfg, e);
      if e.Admit? {
        KeepsReserveIff(Next(v, cfg, e), cfg);
        AdmissionSparesIff(v, cfg, e.job, e.bytes, e.now);
      }
      AllKeepIff(Next(v, cfg, e), cfg, events[1..]);
    }
  }

  /** No other writer takes space. */
  predicate OnlyWriter(events: seq<Event>) {
    forall i :: 0 <= i < |events| && events[i].Others? ==> events[i].change >= 0
  }

  /** What is yet to be written leaves the reserve free; or nothing has been admitted since `floor` bytes were. */
  ghost predicate Kept(v: Volume, cfg: Settings, floor: int) {
    Spared(v, cfg.minFree) || (v.unwritten == map[] && v.free >= floor)
  }

  lemma NextKept(v: Volume, cfg: Settings, e: Event, floor: int)
    requires Inv(v) && Enabled(v, cfg, e) && Kept(v, cfg, floor) && OnlyWriter([e]) && cfg.minFree > 0
    requires e.Admit? ==> Timely(v, cfg, e.bytes, e.now)
    ensures Kept(Next(v, cfg, e), cfg, floor)
  {
    hide SumOf, Balanced, Inv, Timely, Spared;
    assert [e][0] == e;
    if e.Admit? {
      AdmissionSparesIff(v, cfg, e.job, e.bytes, e.now);
    } else if Spared(v, cfg.minFree) {
      NextSpared(v, cfg, e, cfg.minFree);
    } else if e.Complete? {
      assert v.unwritten - {e.job} == map[];
    }
  }

  lemma {:induction false} RunKept(v: Volume, cfg: Settings, events: seq<Event>, floor: int)
    requires Inv(v) && Legal(v, cfg, events) && Kept(v, cfg, floor) && OnlyWriter(events) && cfg.minFree > 0
    requires AllTimely(v, cfg, events)
    ensures Kept(Exec(v, cfg, events), cfg, floor) && Inv(Exec(v, cfg, events))
    decreases |events|
  {
    hide Inv, Kept, Enabled, Next, Timely;
    if events != [] {
      assert [events[0]][0] == events[0];
      NextInv(v, cfg, events[0]);
      NextKept(v, cfg, events[0], floor);
      RunKept(Next(v, cfg, events[0]), cfg, events[1..], floor);
    }
  }

  /** With every admission in time, and this tier the one writer, stores never take the free space below the
      reserve: at any time it covers the reserve, or is no less than at the start. */
  lemma ReserveHolds(free: int, clock: real, cfg: Settings, events: seq<Event>)
    requires clock >= 0.0 && cfg.minFree > 0 && Legal(Started(free, clock), cfg, events) && OnlyWriter(events)
    requires AllTimely(Started(free, clock), cfg, events)
    ensures var v := Exec(Started(free, clock), cfg, events);
            v.free >= cfg.minFree || v.free >= free
  {
    hide Inv, Enabled, Next, Spared, Legal, Exec, AllTimely;
    var v := Exec(Started(free, clock), cfg, events);
    StartedInv(free, clock);
    RunKept(Started(free, clock), cfg, events, free);
    if Spared(v, cfg.minFree) {
      SparedIsFree(v, cfg.minFree);
    }
  }

  /** Two stores admitted on one reading, the second after the first has written and completed. */
  function Overfilling(): seq<Event> {
    [Admit(1, 8, 1.0), Write(1, 8), Complete(1), Admit(2, 8, 1.0), Write(2, 8)]
  }

  /** However short a reading is used again, a run goes below the reserve: the second store is admitted although
      the first one's bytes are gone and no longer reserved. */
  lemma StaleReadingOverfills(cfg: Settings)
    requires cfg.minFree > 0 && cfg.interval > 0.0
    ensures var v := Started(cfg.minFree + 10, 1.0);
            Legal(v, cfg, Overfilling()) && Exec(v, cfg, Overfilling()).free < cfg.minFree
  {
    var v := Started(cfg.minFree + 10, 1.0);
    FirstStore(cfg);
    SecondStore(cfg);
    EvolvedOn(v, cfg, FIRST, Between(cfg), SECOND, After(cfg));
    assert FIRST + SECOND == Overfilling();
  }

  const FIRST := [Admit(1, 8, 1.0), Write(1, 8), Complete(1)]
  const SECOND := [Admit(2, 8, 1.0), Write(2, 8)]

  /** The first store is done: eight bytes are gone that the reading still shows. */
  function Between(cfg: Settings): Volume {
    Volume(cfg.minFree + 2, 1.0, Reading(cfg.minFree + 10, 1.0), map[], map[], map[], 8, 0)
  }

  function After(cfg: Settings): Volume {
    Volume(cfg.minFree - 6, 1.0, Reading(cfg.minFree + 10, 1.0), map[2 := 0], map[2 := 8], map[2 := 0], 8, 0)
  }

  lemma FirstStore(cfg: Settings)
    requires cfg.minFree > 0
    ensures Evolved(Started(cfg.minFree + 10, 1.0), cfg, FIRST, Between(cfg))
  {
    var v0 := Started(cfg.minFree + 10, 1.0);
    var v1 := Next(v0, cfg, FIRST[0]);
    var v2 := Next(v1, cfg, FIRST[1]);
    assert SumOf(v0.reserved) == 0;
    assert v1.reserved == map[1 := 8] && v1.unwritten == map[1 := 8] && v1.before == map[1 := 0];
    assert v2.unwritten == map[1 := 0];
    var v3 := Next(v2, cfg, FIRST[2]);
    assert v2.unwritten - {1} == map[] && v2.reserved - {1} == map[] && v2.before - {1} == map[];
    assert v3 == Between(cfg);
    EvolvedOne(v0, cfg, FIRST[0]);
    EvolvedOne(v1, cfg, FIRST[1]);
    EvolvedOne(v2, cfg, FIRST[2]);
    hide Evolved, Next, Enabled;
    EvolvedOn(v0, cfg, [FIRST[0]], v1, [FIRST[1]], v2);
    EvolvedOn(v0, cfg, [FIRST[0]] + [FIRST[1]], v2, [FIRST[2]], v3);
    assert [FIRST[0]] + [FIRST[1]] + [FIRST[2]] == FIRST;
  }

  lemma SecondStore(cfg: Settings)
    requires cfg.minFree > 0 && cfg.interval > 0.0
    ensures Evolved(Between(cfg), cfg, SECOND, After(cfg))
  {
    var v0 := Between(cfg);
    var v1 := Next(v0, cfg, SECOND[0]);
    assert SumOf(v0.reserved) == 0;
    assert v1.reserved == map[2 := 8] && v1.unwritten == map[2 := 8] && v1.before == map[2 := 0];
    var v2 := Next(v1, cfg, SECOND[1]);
    assert v2.unwritten == map[2 := 0] && v2 == After(cfg);
    EvolvedOne(v0, cfg, SECOND[0]);
    EvolvedOne(v1, cfg, SECOND[1]);
    hide Evolved, Next, Enabled;
    EvolvedOn(v0, cfg, [SECOND[0]], v1, [SECOND[1]], v2);
    assert [SECOND[0]] + [SECOND[1]] == SECOND;
  }

  /** Every admission of every run keeps the reserve. */
  ghost predicate AlwaysKeeps(cfg: Settings) {
    forall free, clock, events :: clock >= 0.0 && Legal(Started(free, clock), cfg, events) ==>
                                    AllKeep(Started(free, clock), cfg, events)
  }

  lemma {:induction false} UncachedTimely(v: Volume, cfg: Settings, events: seq<Event>)
    requires Inv(v) && cfg.interval == 0.0 && Legal(v, cfg, events)
    ensures AllTimely(v, cfg, events)
    decreases |events|
  {
    hide Balanced, Within;
    if events != [] {
      NextInv(v, cfg, events[0]);
      UncachedTimely(Next(v, cfg, events[0]), cfg, events[1..]);
    }
  }

  /** The settings under which the reserve holds over all runs are those that never use a reading twice. */
  lemma AlwaysKeepsIff(cfg: Settings)
    requires cfg.Valid() && cfg.minFree > 0
    ensures AlwaysKeeps(cfg) <==> cfg.interval == 0.0
  {
    hide Inv, Legal, AllKeep, AllTimely;
    if cfg.interval == 0.0 {
      forall free, clock, events | clock >= 0.0 && Legal(Started(free, clock), cfg, events)
        ensures AllKeep(Started(free, clock), cfg, events)
      {
        StartedInv(free, clock);
        UncachedTimely(Started(free, clock), cfg, events);
        AllKeepIff(Started(free, clock), cfg, events);
      }
    } else {
      var v := Started(cfg.minFree + 10, 1.0);
      StaleReadingOverfills(cfg);
      StartedInv(cfg.minFree + 10, 1.0);
      if AllKeep(v, cfg, Overfilling()) {
        AllKeepIff(v, cfg, Overfilling());
        ReserveHolds(cfg.minFree + 10, 1.0, cfg, Overfilling());
      }
    }
  }
}
