/** The scheduler's external prefix lookup: how many tokens past the locally computed
    ones can be loaded, given groups of KV layers with different chunk sizes.

    Full-attention groups search a prefix of hits, sliding-window groups the last
    window of hits; each may tighten the boundary, which can undo what an earlier
    sliding-window group found, so the groups are asked again until they agree.
 */
module PrefixLookup {
  import opened Wrappers

  type Key = nat

  datatype LookupResult = Hit | HitPending | Retry | Miss

  /** One KV cache group; window is None for full attention. */
  datatype Group = Group(
    tokensPerChunk: nat,
    window: Option<nat>,
    isEagle: bool,
    vetoExempt: bool,
    skipExternalReuse: bool)
  {
    ghost predicate Valid() {
      && tokensPerChunk > 0
      && (window.Some? ==> window.value > 0)
      && (vetoExempt ==> isEagle)
    }
  }

  /** What the secondary tier answers to its n-th question, about a key. */
  type Oracle = (nat, Key) -> LookupResult

  /** The tier gives the same answer about a key however often it is asked. */
  ghost predicate Stable(answer: Oracle) {
    forall n: nat, key: Key {:trigger answer(n, key)} :: answer(n, key) == answer(0, key)
  }

  predicate IsHit(answer: Oracle, key: Key) {
    answer(0, key).Hit?
  }

  predicate Undecided(answer: Oracle, key: Key) {
    answer(0, key).HitPending? || answer(0, key).Retry?
  }

  function Min(a: int, b: int): int {
    if a <= b then a else b
  }

  function CeilDiv(a: nat, b: nat): nat
    requires b > 0
  {
    (a + b - 1) / b
  }

  lemma AlignedBelow(m: nat, top: int, n: int)
    requires m > 0 && top % m == 0 && top <= n
    ensures top <= n / m * m
  {
    assert top == top / m * m;
    if top / m > n / m {
      assert n == n / m * m + n % m;
      MulMono(m, n / m + 1, top / m);
    }
  }

  lemma MultipleIs(m: nat, k: int)
    requires m > 0
    ensures k * m % m == 0
  {
    var q := k * m / m;
    assert k * m == m * q + k * m % m;
    if k > q {
      MulMono(m, q + 1, k);
    } else if k < q {
      MulMono(m, k, q - 1);
    }
  }

  // ----- searching one group's keys

  /** The first `end` keys are all hits. */
  ghost predicate PrefixOfHits(keys: seq<Key>, answer: Oracle, end: nat) {
    end <= |keys| && forall i :: 0 <= i < end ==> IsHit(answer, keys[i])
  }

  /** The `window` keys before `end`, or all of them when there are fewer, are hits. */
  ghost predicate WindowOfHits(keys: seq<Key>, answer: Oracle, window: nat, end: nat) {
    end <= |keys| && forall i :: 0 <= i < end && end - window <= i ==> IsHit(answer, keys[i])
  }

  /** The group can serve a load up to `end` of these keys. */
  ghost predicate Servable(keys: seq<Key>, answer: Oracle, window: Option<nat>, end: nat) {
    if window.None? then PrefixOfHits(keys, answer, end)
    else WindowOfHits(keys, answer, window.value, end)
  }

  method MaximalPrefixLookup(keys: seq<Key>, answer: Oracle, asked: nat)
    returns (hits: Option<nat>, asked': nat)
    ensures asked <= asked'
    ensures hits.Some? ==> hits.value <= |keys|
    ensures Stable(answer) && hits.Some? ==>
              && PrefixOfHits(keys, answer, hits.value)
              && forall end :: hits.value < end <= |keys| ==> !PrefixOfHits(keys, answer, end)
    ensures Stable(answer) ==>
              (hits.None? <==> exists i :: && 0 <= i < |keys|
                                           && Undecided(answer, keys[i])
                                           && forall j :: 0 <= j < i ==> !answer(0, keys[j]).Miss?)
  {
    var hitCount, defer, local := 0, false, 0;
    asked' := asked;
    while local < |keys|
      invariant 0 <= hitCount <= local <= |keys|
      invariant asked <= asked'
      invariant Stable(answer) ==> forall j :: 0 <= j < local ==> !answer(0, keys[j]).Miss?
      invariant Stable(answer) ==> (defer <==> exists j :: 0 <= j < local && Undecided(answer, keys[j]))
      invariant !defer ==> hitCount == local
    {
      var result := answer(asked', keys[local]);
      asked' := asked' + 1;
      match result {
        case Hit => hitCount := hitCount + 1;
        case HitPending => defer := true; hitCount := hitCount + 1;
        case Retry => defer := true;
        case Miss => break;
      }
      local := local + 1;
    }
    hits := if defer then None else Some(hitCount);
  }

  method SlidingWindowLookup(keys: seq<Key>, window: nat, answer: Oracle, asked: nat)
    returns (hits: Option<nat>, asked': nat)
    requires window > 0
    ensures asked <= asked'
    ensures hits.Some? ==> hits.value <= |keys|
    ensures Stable(answer) && hits.Some? ==>
              && WindowOfHits(keys, answer, window, hits.value)
              && forall end :: hits.value < end <= |keys| ==> !WindowOfHits(keys, answer, window, end)
    ensures Stable(answer) && hits.None? ==> exists i :: 0 <= i < |keys| && Undecided(answer, keys[i])
  {
    var defer, run, idx := false, 0, |keys|;
    asked' := asked;
    while idx > 0
      invariant 0 <= run < window
      invariant 0 <= idx && idx + run <= |keys|
      invariant asked <= asked'
      invariant Stable(answer) && !defer ==>
                  && (forall i :: idx <= i < idx + run ==> IsHit(answer, keys[i]))
                  && (forall end :: idx + run < end <= |keys| ==> !WindowOfHits(keys, answer, window, end))
      invariant Stable(answer) && defer ==> exists i :: 0 <= i < |keys| && Undecided(answer, keys[i])
    {
      idx := idx - 1;
      var result := answer(asked', keys[idx]);
      asked' := asked' + 1;
      ghost var wasRun := run;
      match result {
        case Hit => run := run + 1;
        case HitPending => defer := true; run := run + 1;
        case Retry => defer := true; run := 0;
        case Miss => run := 0;
      }
      if Stable(answer) && !defer && !result.Hit? {
        forall end | idx < end <= |keys|
          ensures !WindowOfHits(keys, answer, window, end)
        {
          if end <= idx + 1 + wasRun {
            assert end - window <= idx < end && !IsHit(answer, keys[idx]);
          }
        }
      }
      if run == window {
        hits := if defer then None else Some(idx + window);
        return;
      }
    }
    hits := if defer then None else Some(run);
  }

  // ----- boundaries, in tokens

  /** The keys a group is asked about when the load may end at `boundary`. */
  function Asked(g: Group, keys: seq<Key>, computed: nat, boundary: int): seq<Key>
    requires g.tokensPerChunk > 0
  {
    var start := Min(computed / g.tokensPerChunk, |keys|);
    var end := if boundary <= 0 then 0 else Min(CeilDiv(boundary, g.tokensPerChunk), |keys|);
    if start <= end then keys[start..end] else []
  }

  /** The tier is undecided about a key the group is asked about. */
  ghost predicate UndecidedAbout(g: Group, keys: seq<Key>, answer: Oracle, computed: nat, boundary: int)
    requires g.tokensPerChunk > 0
  {
    exists key :: key in Asked(g, keys, computed, boundary) && Undecided(answer, key)
  }

  /** A shorter load asks about no other keys. */
  lemma AskedGrows(g: Group, keys: seq<Key>, computed: nat, low: int, high: int)
    requires g.tokensPerChunk > 0 && low <= high
    ensures Asked(g, keys, computed, low) <= Asked(g, keys, computed, high)
  {
    hide CeilDiv;
    if low > 0 {
      CeilDivMono(low, high, g.tokensPerChunk);
      SliceGrows(keys, Min(computed / g.tokensPerChunk, |keys|), Min(CeilDiv(low, g.tokensPerChunk), |keys|),
                 Min(CeilDiv(high, g.tokensPerChunk), |keys|));
    }
  }

  lemma SliceGrows(keys: seq<Key>, start: nat, end: nat, later: nat)
    requires start <= |keys| && end <= later <= |keys|
    ensures start <= end ==> keys[start..end] <= keys[start..later]
  {
  }

  lemma AskedLess(g: Group, keys: seq<Key>, answer: Oracle, computed: nat, low: int, high: int)
    requires g.tokensPerChunk > 0 && low <= high && UndecidedAbout(g, keys, answer, computed, low)
    ensures UndecidedAbout(g, keys, answer, computed, high)
  {
    hide Asked;
    AskedGrows(g, keys, computed, low, high);
    var key :| key in Asked(g, keys, computed, low) && Undecided(answer, key);
    assert key in Asked(g, keys, computed, high);
  }

  /** The group holds everything a load up to `boundary` needs from it. */
  ghost predicate Supports(g: Group, keys: seq<Key>, answer: Oracle, computed: nat, boundary: nat)
    requires g.tokensPerChunk > 0
  {
    && boundary <= |keys| * g.tokensPerChunk
    && var asked := Asked(g, keys, computed, boundary);
       Servable(asked, answer, g.window, |asked|)
  }

  lemma CeilDivBounds(a: nat, b: nat)
    requires b > 0
    ensures a <= b * CeilDiv(a, b) < a + b
  {
    assert a + b - 1 == b * CeilDiv(a, b) + (a + b - 1) % b;
  }

  lemma MulMono(b: nat, x: int, y: int)
    requires x <= y
    ensures b * x <= b * y
  {
  }

  /** CeilDiv is the least number of b's that reaches a. */
  lemma CeilDivLeast(a: nat, b: nat, q: nat)
    requires b > 0
    ensures CeilDiv(a, b) <= q <==> a <= b * q
  {
    CeilDivBounds(a, b);
    var p := CeilDiv(a, b);
    if p <= q {
      MulMono(b, p, q);
    } else {
      MulMono(b, q + 1, p);
      assert b * (q + 1) == b * q + b;
    }
  }

  lemma CeilDivMono(a: nat, a': nat, b: nat)
    requires b > 0 && a <= a'
    ensures CeilDiv(a, b) <= CeilDiv(a', b)
  {
    CeilDivBounds(a', b);
    CeilDivLeast(a, b, CeilDiv(a', b));
  }

  /** A shorter load asks a full-attention group for less. */
  lemma FullAttentionDownward(g: Group, keys: seq<Key>, answer: Oracle, computed: nat, low: nat, high: nat)
    requires g.tokensPerChunk > 0 && g.window.None?
    requires low <= high && Supports(g, keys, answer, computed, high)
    ensures Supports(g, keys, answer, computed, low)
  {
    hide Asked;
    AskedGrows(g, keys, computed, low, high);
  }

  /** Cutting `clamped` back to a whole number of chunks leaves exactly that many chunks. */
  lemma CutEnd(t: nat, clamped: nat, end: nat)
    requires t > 0 && end <= CeilDiv(clamped, t)
    ensures CeilDiv(Min(clamped, t * end), t) == end
    ensures forall b: nat :: Min(clamped, t * end) < b <= clamped ==> end < CeilDiv(b, t) <= CeilDiv(clamped, t)
  {
    var after := Min(clamped, t * end);
    CeilDivLeast(after, t, end);
    if end > 0 {
      assert t * (end - 1) == t * end - t;
      CeilDivLeast(after, t, end - 1);
      CeilDivLeast(clamped, t, end - 1);
    }
    forall b: nat | after < b <= clamped
      ensures end < CeilDiv(b, t) <= CeilDiv(clamped, t)
    {
      CeilDivLeast(b, t, end);
      CeilDivMono(b, clamped, t);
    }
  }

  lemma ChunksFit(computed: nat, clamped: nat, t: nat, n: nat)
    requires t > 0 && t <= clamped - computed && clamped <= n * t
    ensures computed / t <= CeilDiv(clamped, t) <= n
  {
    CeilDivLeast(clamped, t, n);
    CeilDivBounds(clamped, t);
    assert computed == t * (computed / t) + computed % t;
    if CeilDiv(clamped, t) < computed / t {
      MulMono(t, CeilDiv(clamped, t), computed / t);
    }
  }

  // ----- what a load needs, in tokens

  /** Of n chunks of a group, the load of the tokens from `computed` up to `boundary` needs this one: it holds
      some of them and, in a sliding-window group, is among the last chunks of the window. */
  predicate Needed(g: Group, n: nat, chunk: nat, computed: nat, boundary: int)
    requires g.tokensPerChunk > 0
  {
    && chunk * g.tokensPerChunk < boundary && computed < (chunk + 1) * g.tokensPerChunk
    && (g.window.Some? ==>
          (chunk + g.window.value) * g.tokensPerChunk >= boundary || chunk + g.window.value >= n)
  }

  /** The group has every chunk that the load needs. */
  ghost predicate Serves(g: Group, keys: seq<Key>, answer: Oracle, computed: nat, boundary: nat)
    requires g.tokensPerChunk > 0
  {
    && boundary <= |keys| * g.tokensPerChunk
    && forall chunk: nat :: chunk < |keys| && Needed(g, |keys|, chunk, computed, boundary) ==>
         IsHit(answer, keys[chunk])
  }

  function StartChunk(g: Group, n: nat, computed: nat): nat
    requires g.tokensPerChunk > 0
  {
    Min(computed / g.tokensPerChunk, n)
  }

  function EndChunk(g: Group, n: nat, boundary: int): nat
    requires g.tokensPerChunk > 0
  {
    if boundary <= 0 then 0 else Min(CeilDiv(boundary, g.tokensPerChunk), n)
  }

  /** The chunks asked about are those with a token to load. */
  lemma AskedChunk(g: Group, n: nat, computed: nat, boundary: int, chunk: nat)
    requires g.tokensPerChunk > 0 && chunk < n
    ensures StartChunk(g, n, computed) <= chunk < EndChunk(g, n, boundary) <==>
              chunk * g.tokensPerChunk < boundary && computed < (chunk + 1) * g.tokensPerChunk
  {
    var t := g.tokensPerChunk;
    if boundary > 0 {
      CeilDivLeast(boundary, t, chunk);
    }
    StartsAt(t, computed, chunk);
  }

  lemma StartsAt(t: nat, computed: nat, chunk: nat)
    requires t > 0
    ensures computed / t <= chunk <==> computed < (chunk + 1) * t
  {
    assert computed == t * (computed / t) + computed % t;
    if computed / t <= chunk {
      MulMono(t, computed / t, chunk);
    } else {
      MulMono(t, chunk + 1, computed / t);
    }
  }

  /** In a window are the chunks at most its length before the end. */
  lemma WindowChunk(g: Group, n: nat, boundary: int, chunk: nat)
    requires g.tokensPerChunk > 0 && g.window.Some? && boundary > 0
    ensures EndChunk(g, n, boundary) - g.window.value <= chunk <==>
              (chunk + g.window.value) * g.tokensPerChunk >= boundary || chunk + g.window.value >= n
  {
    CeilDivLeast(boundary, g.tokensPerChunk, chunk + g.window.value);
  }

  /** The chunks a group is asked about that it needs to serve a load are those in terms of tokens. */
  lemma NeededAt(g: Group, n: nat, computed: nat, boundary: int, chunk: nat)
    requires g.tokensPerChunk > 0 && chunk < n
    ensures Needed(g, n, chunk, computed, boundary) <==>
              && StartChunk(g, n, computed) <= chunk < EndChunk(g, n, boundary)
              && (g.window.Some? ==> EndChunk(g, n, boundary) - g.window.value <= chunk)
  {
    hide StartChunk, EndChunk;
    AskedChunk(g, n, computed, boundary, chunk);
    if g.window.Some? && boundary > 0 {
      WindowChunk(g, n, boundary, chunk);
    }
  }

  /** What the search finds a group to support is what it can serve. */
  lemma SupportsIff(g: Group, keys: seq<Key>, answer: Oracle, computed: nat, boundary: nat)
    requires g.tokensPerChunk > 0
    ensures Supports(g, keys, answer, computed, boundary) <==> Serves(g, keys, answer, computed, boundary)
  {
    hide Needed;
    var asked := Asked(g, keys, computed, boundary);
    var start, end := StartChunk(g, |keys|, computed), EndChunk(g, |keys|, boundary);
    assert asked == if start <= end then keys[start..end] else [];
    hide StartChunk, EndChunk, Asked;
    if Supports(g, keys, answer, computed, boundary) {
      forall chunk: nat | chunk < |keys| && Needed(g, |keys|, chunk, computed, boundary)
        ensures IsHit(answer, keys[chunk])
      {
        NeededAt(g, |keys|, computed, boundary, chunk);
        assert asked[chunk - start] == keys[chunk];
      }
    }
    if Serves(g, keys, answer, computed, boundary) {
      forall i | 0 <= i < |asked| && (g.window.Some? ==> |asked| - g.window.value <= i)
        ensures IsHit(answer, asked[i])
      {
        NeededAt(g, |keys|, computed, boundary, start + i);
        assert asked[i] == keys[start + i];
      }
    }
  }

  /** The tier is undecided about a chunk with a token to load. */
  ghost predicate UndecidedChunk(g: Group, keys: seq<Key>, answer: Oracle, computed: nat, boundary: int)
    requires g.tokensPerChunk > 0
  {
    exists chunk: nat :: chunk < |keys| && chunk * g.tokensPerChunk < boundary
                         && computed < (chunk + 1) * g.tokensPerChunk && Undecided(answer, keys[chunk])
  }

  lemma UndecidedIff(g: Group, keys: seq<Key>, answer: Oracle, computed: nat, boundary: int)
    requires g.tokensPerChunk > 0 && UndecidedAbout(g, keys, answer, computed, boundary)
    ensures UndecidedChunk(g, keys, answer, computed, boundary)
  {
    var start, end := StartChunk(g, |keys|, computed), EndChunk(g, |keys|, boundary);
    var asked := Asked(g, keys, computed, boundary);
    assert asked == if start <= end then keys[start..end] else [];
    var key :| key in asked && Undecided(answer, key);
    var i :| 0 <= i < |asked| && asked[i] == key;
    AskedChunk(g, |keys|, computed, boundary, start + i);
    assert keys[start + i] == key;
  }

  /** A search of the keys below `before` ended after `hits` of them, and rightly so. */
  ghost predicate Found(g: Group, keys: seq<Key>, answer: Oracle, computed: nat, before: nat, hits: nat)
    requires g.tokensPerChunk > 0
  {
    var clamped := Min(before, |keys| * g.tokensPerChunk);
    && g.tokensPerChunk <= clamped - computed
    && var asked := Asked(g, keys, computed, clamped);
       && hits <= |asked|
       && Servable(asked, answer, g.window, hits)
       && forall end :: hits < end <= |asked| ==> !Servable(asked, answer, g.window, end)
  }

  /** The boundary a group leaves after `hits` of its keys. */
  function Cut(g: Group, keys: seq<Key>, computed: nat, before: nat, hits: nat): nat
    requires g.tokensPerChunk > 0
  {
    Min(Min(before, |keys| * g.tokensPerChunk), g.tokensPerChunk * (computed / g.tokensPerChunk + hits))
  }

  lemma NoHitsCut(g: Group, keys: seq<Key>, computed: nat, before: nat)
    requires g.tokensPerChunk > 0
    ensures Cut(g, keys, computed, before, 0) <= computed
  {
  }

  /** What one group's search does to the boundary: it becomes the greatest one, not
      past the old, that the group supports. */
  lemma GroupTightens(g: Group, keys: seq<Key>, answer: Oracle, computed: nat, before: nat, hits: nat)
    requires g.Valid() && Found(g, keys, answer, computed, before, hits)
    ensures Supports(g, keys, answer, computed, Cut(g, keys, computed, before, hits))
    ensures forall b: nat :: b <= before && Supports(g, keys, answer, computed, b) ==>
              b <= Cut(g, keys, computed, before, hits)
  {
    var t, start := g.tokensPerChunk, computed / g.tokensPerChunk;
    var clamped := Min(before, |keys| * t);
    var asked := Asked(g, keys, computed, clamped);
    var num := CeilDiv(clamped, t);
    ChunksFit(computed, clamped, t, |keys|);
    assert asked == keys[start..num];
    CutEnd(t, clamped, start + hits);
    var after := Min(clamped, t * (start + hits));
    AskedPrefix(g, keys, computed, after, num);
    ServablePrefix(asked, answer, g.window, hits);
    forall b: nat | b <= before && Supports(g, keys, answer, computed, b)
      ensures b <= after
    {
      if after < b {
        var end := CeilDiv(b, t) - start;
        AskedPrefix(g, keys, computed, b, num);
        ServablePrefix(asked, answer, g.window, end);
      }
    }
  }

  lemma AskedPrefix(g: Group, keys: seq<Key>, computed: nat, b: nat, num: nat)
    requires g.tokensPerChunk > 0
    requires computed / g.tokensPerChunk <= CeilDiv(b, g.tokensPerChunk) <= num <= |keys|
    ensures Asked(g, keys, computed, b)
         == keys[computed / g.tokensPerChunk..num][..CeilDiv(b, g.tokensPerChunk) - computed / g.tokensPerChunk]
  {
    CeilDivLeast(b, g.tokensPerChunk, 0);
  }

  lemma ServablePrefix(keys: seq<Key>, answer: Oracle, window: Option<nat>, end: nat)
    requires end <= |keys|
    ensures Servable(keys[..end], answer, window, end) <==> Servable(keys, answer, window, end)
  {
  }

  // ----- the scheduler

  /** The request fields the lookup reads, and the one it publishes. */
  class RequestState {
    var numTokens: nat
    var numLocallyComputed: nat
    /** The offload keys of each group, one per chunk. */
    var offloadKeys: seq<seq<Key>>
    var lookupExcluded: set<nat>

    constructor (numTokens: nat, numLocallyComputed: nat, offloadKeys: seq<seq<Key>>)
      ensures this.numTokens == numTokens && this.numLocallyComputed == numLocallyComputed
      ensures this.offloadKeys == offloadKeys && lookupExcluded == {}
    {
      this.numTokens := numTokens;
      this.numLocallyComputed := numLocallyComputed;
      this.offloadKeys := offloadKeys;
      lookupExcluded := {};
    }
  }

  /** The group indices in `all` that are not excluded, in order. */
  function Remaining(all: seq<nat>, excluded: set<nat>): (r: seq<nat>)
    ensures forall i :: i in r <==> i in all && i !in excluded
    ensures forall a :: 0 <= a < |r| ==> r[a] in all
  {
    if all == [] then []
    else if all[0] in excluded then Remaining(all[1..], excluded)
    else [all[0]] + Remaining(all[1..], excluded)
  }

  /** What asking one group did: end the lookup with nothing to load, drop the group,
      or leave a boundary, not yet settled or confirmed by this group. */
  datatype Outcome = TooFew | Exempt | Deferred(maxHit: int) | Tightened(maxHit: int)

  /** The variables of one lookup. */
  datatype Search = Search(
    maxHit: int,
    numHit: int,
    defer: bool,
    excluded: set<nat>,
    eagleVerified: set<nat>,
    asked: nat)
  {
    ghost predicate Valid(computed: nat, limit: int) {
      && 0 <= numHit && maxHit <= limit
      && (numHit > 0 ==> maxHit - computed <= numHit <= limit - computed)
    }

    /** Falls whenever a group is asked again. */
    ghost function Potential(limit: int): nat {
      if numHit > 0 then numHit else if limit < 0 then 1 else limit + 1
    }
  }

  class OffloadingScheduler {
    const groups: seq<Group>
    const fullGroups: seq<nat>
    const slidingGroups: seq<nat>
    const mambaAlign: Option<nat>
    var chunksBeingLoaded: set<Key>

    ghost predicate Valid() {
      && (forall i :: 0 <= i < |groups| ==> groups[i].Valid())
      && (forall i :: i in fullGroups <==> 0 <= i < |groups| && groups[i].window.None?)
      && (forall i :: i in slidingGroups <==> 0 <= i < |groups| && groups[i].window.Some?)
      && (mambaAlign.Some? ==> mambaAlign.value > 0)
    }

    constructor (groups: seq<Group>, fullGroups: seq<nat>, slidingGroups: seq<nat>, mambaAlign: Option<nat>)
      ensures this.groups == groups && this.fullGroups == fullGroups
      ensures this.slidingGroups == slidingGroups && this.mambaAlign == mambaAlign
      ensures chunksBeingLoaded == {}
    {
      this.groups := groups;
      this.fullGroups := fullGroups;
      this.slidingGroups := slidingGroups;
      this.mambaAlign := mambaAlign;
      chunksBeingLoaded := {};
    }

    function LookupGroups(): seq<nat> {
      fullGroups + slidingGroups
    }

    function SkippedGroups(): (s: set<nat>) {
      set i | 0 <= i < |groups| && groups[i].skipExternalReuse
    }

    /** The most tokens a hit may cover: the last prompt token is recomputed when some
        group slides, and Mamba state exists only at aligned positions. */
    function HitLimit(numTokens: nat): int
      requires Valid()
    {
      if slidingGroups == [] then numTokens
      else if mambaAlign.None? then numTokens - 1
      else (numTokens - 1) / mambaAlign.value * mambaAlign.value
    }

    /** Every group that takes part in external reuse can serve a load up to `boundary`. */
    ghost predicate AllSupport(keys: seq<seq<Key>>, answer: Oracle, computed: nat, boundary: nat)
      requires Valid() && |keys| == |groups|
    {
      forall i :: 0 <= i < |groups| && !groups[i].skipExternalReuse ==>
        Supports(groups[i], keys[i], answer, computed, boundary)
    }

    /** The tier's answers are fixed and only excluded groups are EAGLE groups. */
    ghost predicate Settled(answer: Oracle) {
      && Stable(answer)
      && forall i :: 0 <= i < |groups| && groups[i].isEagle ==> groups[i].skipExternalReuse
    }

    /** No boundary every group supports lies a whole chunk of group i past `computed`. */
    ghost predicate TooShort(i: nat, keys: seq<seq<Key>>, answer: Oracle, computed: nat, limit: int)
      requires Valid() && |keys| == |groups| && i < |groups|
    {
      forall b: nat :: b <= limit && AllSupport(keys, answer, computed, b) ==>
        b - computed < groups[i].tokensPerChunk
    }

    /** Every group that takes part supports `reached`, and none further would do for all. */
    ghost predicate IsGreatest(keys: seq<seq<Key>>, answer: Oracle, computed: nat, limit: int, reached: nat)
      requires Valid() && |keys| == |groups|
    {
      && AllSupport(keys, answer, computed, reached)
      && forall b: nat :: reached < b <= limit ==> !AllSupport(keys, answer, computed, b)
    }

    ghost predicate SomeTooShort(keys: seq<seq<Key>>, answer: Oracle, computed: nat, limit: int)
      requires Valid() && |keys| == |groups|
    {
      exists i :: 0 <= i < |groups| && !groups[i].skipExternalReuse && TooShort(i, keys, answer, computed, limit)
    }

    /** The tier is undecided about a key that a group taking part is asked about. */
    ghost predicate SomeUndecided(keys: seq<seq<Key>>, answer: Oracle, computed: nat, limit: int)
      requires Valid() && |keys| == |groups|
    {
      exists i :: 0 <= i < |groups| && !groups[i].skipExternalReuse
                  && UndecidedAbout(groups[i], keys[i], answer, computed, limit)
    }

    /** No key that a load of `hits` tokens would read is already being loaded. */
    ghost predicate ClearToLoad(keys: seq<seq<Key>>, computed: nat, hits: nat, excluded: set<nat>)
      requires Valid() && |keys| == |groups|
      reads this
    {
      forall i :: 0 <= i < |groups| && i !in excluded ==> !AnyBeingLoaded(KeysToLoad(i, keys, computed, hits))
    }

    predicate AnyBeingLoaded(keys: seq<Key>)
      reads this
    {
      exists k :: 0 <= k < |keys| && keys[k] in chunksBeingLoaded
    }

    /** The greatest load, if any group takes part, reads a key that is already being loaded. */
    ghost predicate HeldUp(keys: seq<seq<Key>>, answer: Oracle, computed: nat, limit: int, hits: nat)
      requires Valid() && |keys| == |groups|
      reads this
    {
      && (Remaining(LookupGroups(), SkippedGroups()) != [] ==>
            && hits > 0 && computed + hits <= limit
            && IsGreatest(keys, answer, computed, limit, computed + hits))
      && exists i :: 0 <= i < |groups| && !groups[i].skipExternalReuse
                     && AnyBeingLoaded(KeysToLoad(i, keys, computed, hits))
    }

    ghost predicate Delayed(keys: seq<seq<Key>>, answer: Oracle, computed: nat, limit: int)
      requires Valid() && |keys| == |groups|
      reads this
    {
      exists hits :: HeldUp(keys, answer, computed, limit, hits)
    }

    /** The keys of group i that a load of `hits` tokens would read. */
    function KeysToLoad(i: nat, keys: seq<seq<Key>>, computed: nat, hits: nat): seq<Key>
      requires Valid() && |keys| == |groups| && i < |groups|
    {
      var asked := Asked(groups[i], keys[i], computed, computed + hits);
      if groups[i].window.Some? && groups[i].window.value < |asked|
      then asked[|asked| - groups[i].window.value..] else asked
    }

    method LookupOneGroup(i: nat, keys: seq<Key>, maxHit: int, computed: nat, answer: Oracle, asked: nat,
                          unverifiedEagle: bool)
      returns (hits: Option<nat>, asked': nat)
      requires Valid() && i < |groups|
      requires computed + groups[i].tokensPerChunk <= maxHit <= |keys| * groups[i].tokensPerChunk
      requires unverifiedEagle ==> groups[i].isEagle
      ensures asked <= asked'
      ensures Stable(answer) && hits.Some? && !unverifiedEagle ==>
                var slice := Asked(groups[i], keys, computed, maxHit);
                && hits.value <= |slice|
                && Servable(slice, answer, groups[i].window, hits.value)
                && forall end :: hits.value < end <= |slice| ==> !Servable(slice, answer, groups[i].window, end)
      ensures Stable(answer) && hits.None? && !unverifiedEagle ==>
                UndecidedAbout(groups[i], keys, answer, computed, maxHit)
    {
      var t := groups[i].tokensPerChunk;
      var queryMax := maxHit;
      if unverifiedEagle && groups[i].window.Some? {
        queryMax := Min(maxHit + t, |keys| * t);
      }
      var slice := Asked(groups[i], keys, computed, queryMax);
      if groups[i].window.None? {
        hits, asked' := MaximalPrefixLookup(slice, answer, asked);
      } else {
        var required := groups[i].window.value + if unverifiedEagle then 1 else 0;
        hits, asked' := SlidingWindowLookup(slice, required, answer, asked);
      }
    }

    /** The reusable groups not in `open`, or only the full-attention ones among them,
        support `boundary`. */
    ghost predicate Confirmed(open: seq<nat>, onlyFull: bool, keys: seq<seq<Key>>, answer: Oracle, computed: nat,
                              boundary: int)
      requires Valid() && |keys| == |groups|
    {
      forall i :: 0 <= i < |groups| && !groups[i].skipExternalReuse && i !in open
                  && (onlyFull ==> groups[i].window.None?) ==>
        boundary >= 0 && Supports(groups[i], keys[i], answer, computed, boundary)
    }

    lemma ConfirmStep(pass: seq<nat>, j: nat, wasOnlyFull: bool, onlyFull: bool,
                      keys: seq<seq<Key>>, answer: Oracle, computed: nat, before: nat, after: nat)
      requires Valid() && |keys| == |groups| && j < |pass| && pass[j] < |groups|
      requires Confirmed(pass[j..], wasOnlyFull, keys, answer, computed, before)
      requires wasOnlyFull ==> onlyFull
      requires after <= before
      requires Supports(groups[pass[j]], keys[pass[j]], answer, computed, after)
      requires after < before && !onlyFull ==>
                 forall i :: 0 <= i < |groups| && !groups[i].skipExternalReuse && groups[i].window.Some? ==>
                               i in pass[j..]
      ensures Confirmed(pass[j + 1..], onlyFull, keys, answer, computed, after)
    {
      forall i | 0 <= i < |groups| && !groups[i].skipExternalReuse && i !in pass[j + 1..]
                 && (onlyFull ==> groups[i].window.None?) && i != pass[j]
        ensures Supports(groups[i], keys[i], answer, computed, after)
      {
        assert i !in pass[j..];
        if after < before {
          FullAttentionDownward(groups[i], keys[i], answer, computed, after, before);
        }
      }
    }

    /** Once a pass has reached a sliding-window group, only those follow. */
    ghost predicate FullFirst(pass: seq<nat>)
      requires Valid()
    {
      forall a, b :: 0 <= a < b < |pass| && pass[a] < |groups| && pass[b] < |groups| && groups[pass[a]].window.Some? ==>
        groups[pass[b]].window.Some?
    }

    lemma RemainingSplits(a: seq<nat>, b: seq<nat>, excluded: set<nat>)
      ensures Remaining(a + b, excluded) == Remaining(a, excluded) + Remaining(b, excluded)
    {
      if a == [] {
        assert a + b == b;
      } else {
        assert (a + b)[1..] == a[1..] + b;
        RemainingSplits(a[1..], b, excluded);
      }
    }

    lemma PassesAreFullFirst(excluded: set<nat>)
      requires Valid()
      ensures FullFirst(Remaining(LookupGroups(), excluded))
      ensures FullFirst(Remaining(slidingGroups, excluded))
    {
      RemainingSplits(fullGroups, slidingGroups, excluded);
    }

    /** What an outcome says of the boundaries, up to `limit`, that the group supports. */
    ghost predicate OutcomeSound(g: Group, keys: seq<Key>, limit: int, computed: nat, answer: Oracle, outcome: Outcome)
      requires g.tokensPerChunk > 0
    {
      match outcome
      case TooFew =>
        forall b: nat :: b <= limit && Supports(g, keys, answer, computed, b) ==> b - computed < g.tokensPerChunk
      case Exempt => false
      case Deferred(maxHit) =>
        && UndecidedAbout(g, keys, answer, computed, limit)
        && forall b: nat :: b <= limit && Supports(g, keys, answer, computed, b) ==> b <= maxHit
      case Tightened(maxHit) =>
        && maxHit >= 0
        && Supports(g, keys, answer, computed, maxHit)
        && forall b: nat :: b <= limit && Supports(g, keys, answer, computed, b) ==> b <= maxHit
    }

    /** Ask one group and cut the boundary back to what it can serve. */
    method Tighten(i: nat, keys: seq<Key>, limit: int, computed: nat, answer: Oracle, asked: nat,
                   eagleVerified: set<nat>)
      returns (outcome: Outcome, asked': nat, eagleVerified': set<nat>)
      requires Valid() && i < |groups|
      ensures asked <= asked'
      ensures outcome.Deferred? || outcome.Tightened? ==> computed + groups[i].tokensPerChunk <= outcome.maxHit <= limit
      ensures outcome.Exempt? ==> groups[i].vetoExempt
      ensures Settled(answer) && !groups[i].skipExternalReuse ==>
                OutcomeSound(groups[i], keys, limit, computed, answer, outcome)
    {
      asked', eagleVerified' := asked, eagleVerified;
      var t := groups[i].tokensPerChunk;
      var unverifiedEagle := groups[i].isEagle && i !in eagleVerified;
      var maxHit := Min(limit, |keys| * t);
      if maxHit - computed < t {
        return TooFew, asked', eagleVerified';
      }
      var hits;
      hits, asked' := LookupOneGroup(i, keys, maxHit, computed, answer, asked, unverifiedEagle);
      if hits.None? {
        if Settled(answer) && !groups[i].skipExternalReuse {
          AskedLess(groups[i], keys, answer, computed, maxHit, limit);
        }
        return Deferred(maxHit), asked', eagleVerified';
      }
      if hits.value == 0 {
        outcome := if groups[i].vetoExempt then Exempt else TooFew;
      } else {
        var chunks := hits.value;
        if unverifiedEagle {
          chunks := chunks - 1;
          eagleVerified' := eagleVerified + {i};
        }
        maxHit := Cut(groups[i], keys, computed, limit, chunks);
        outcome := if maxHit - computed < t then TooFew else Tightened(maxHit);
      }
      if Settled(answer) && !groups[i].skipExternalReuse {
        TightenedSound(groups[i], keys, limit, computed, answer, hits.value, outcome);
      }
    }

    lemma TightenedSound(g: Group, keys: seq<Key>, limit: nat, computed: nat, answer: Oracle, hits: nat,
                         outcome: Outcome)
      requires g.Valid() && Found(g, keys, answer, computed, limit, hits)
      requires outcome == if hits == 0 || Cut(g, keys, computed, limit, hits) - computed < g.tokensPerChunk then TooFew
                          else Tightened(Cut(g, keys, computed, limit, hits))
      ensures OutcomeSound(g, keys, limit, computed, answer, outcome)
    {
      GroupTightens(g, keys, answer, computed, limit, hits);
      if hits == 0 {
        NoHitsCut(g, keys, computed, limit);
      }
    }

    /** No boundary that every group supports lies past maxHit. */
    ghost predicate Bounded(keys: seq<seq<Key>>, answer: Oracle, computed: nat, limit: int, maxHit: int)
      requires Valid() && |keys| == |groups|
    {
      forall b: nat :: b <= limit && AllSupport(keys, answer, computed, b) ==> b <= maxHit
    }

    lemma BoundedStep(i: nat, keys: seq<seq<Key>>, answer: Oracle, computed: nat, limit: int, maxHit: int, cut: int,
                      outcome: Outcome)
      requires Valid() && |keys| == |groups| && i < |groups| && !groups[i].skipExternalReuse
      requires Bounded(keys, answer, computed, limit, maxHit)
      requires OutcomeSound(groups[i], keys[i], maxHit, computed, answer, outcome)
      requires outcome == Deferred(cut) || outcome == Tightened(cut)
      ensures Bounded(keys, answer, computed, limit, cut)
    {
      forall b: nat | b <= limit && AllSupport(keys, answer, computed, b)
        ensures b <= cut
      {
        assert Supports(groups[i], keys[i], answer, computed, b);
      }
    }

    /** Every sliding-window group that can veto is still to come in this pass. */
    lemma SlidingStillOpen(pass: seq<nat>, j: nat)
      requires Valid() && j <= |pass| && forall a :: 0 <= a < |pass| ==> pass[a] < |groups|
      requires pass == Remaining(LookupGroups(), SkippedGroups()) || pass == Remaining(slidingGroups, SkippedGroups())
      requires !exists a :: 0 <= a < j && groups[pass[a]].window.Some?
      ensures forall i :: 0 <= i < |groups| && !groups[i].skipExternalReuse && groups[i].window.Some? ==> i in pass[j..]
    {
      forall i | 0 <= i < |groups| && !groups[i].skipExternalReuse && groups[i].window.Some?
        ensures i in pass[j..]
      {
        assert i in pass;
      }
    }

    /** What holds while a pass over the groups has reached position j: `again` lists the
        groups to ask once more, `onlyFull` says that it does so for the sliding ones only. */
    ghost predicate PassInv(keys: seq<seq<Key>>, answer: Oracle, computed: nat, limit: int,
                            pass: seq<nat>, j: nat, again: seq<nat>, onlyFull: bool,
                            lookedUpSliding: bool, maxHit: int, numHit: int, defer: bool)
      requires Valid() && |keys| == |groups|
    {
      var all := Remaining(LookupGroups(), SkippedGroups());
      var sliding := Remaining(slidingGroups, SkippedGroups());
      && j <= |pass| && (forall a :: 0 <= a < |pass| ==> pass[a] < |groups|)
      && (pass == all || pass == sliding)
      && (again == [] ==> !onlyFull)
      && (again != [] ==> again == if onlyFull then sliding else all)
      && (onlyFull && j < |pass| ==> groups[pass[j]].window.Some?)
      && (lookedUpSliding <==> exists a :: 0 <= a < j && groups[pass[a]].window.Some?)
      && Bounded(keys, answer, computed, limit, maxHit)
      && (!defer && (again == [] || onlyFull) ==> Confirmed(pass[j..], onlyFull, keys, answer, computed, maxHit))
      && (j > 0 ==> numHit > 0)
      && (numHit == maxHit - computed || (numHit == 0 && j == 0 && pass == all && again == []))
      && (defer ==> SomeUndecided(keys, answer, computed, limit))
    }

    lemma PassStep(keys: seq<seq<Key>>, answer: Oracle, computed: nat, limit: int,
                   pass: seq<nat>, j: nat, again: seq<nat>, onlyFull: bool,
                   lookedUpSliding: bool, maxHit: int, numHit: int, defer: bool,
                   cut: int, deferNow: bool, again': seq<nat>, onlyFull': bool, defer': bool)
      requires Valid() && |keys| == |groups| && j < |pass| && pass[j] < |groups|
      requires PassInv(keys, answer, computed, limit, pass, j, again, onlyFull, lookedUpSliding, maxHit, numHit, defer)
      requires numHit >= 0 && computed < cut <= maxHit <= limit
      requires OutcomeSound(groups[pass[j]], keys[pass[j]], maxHit, computed, answer,
                            if deferNow then Deferred(cut) else Tightened(cut))
      requires var tight := cut - computed < numHit;
               && defer' == ((defer || deferNow) && !tight)
               && (again', onlyFull') ==
                  if tight && (defer || deferNow) then (Remaining(LookupGroups(), SkippedGroups()), false)
                  else if tight && lookedUpSliding && again == [] then (Remaining(slidingGroups, SkippedGroups()), true)
                  else (again, onlyFull)
      ensures PassInv(keys, answer, computed, limit, pass, j + 1, again', onlyFull',
                      lookedUpSliding || groups[pass[j]].window.Some?, cut, cut - computed, defer')
    {
      PassesAreFullFirst(SkippedGroups());
      assert pass[j] in pass;
      if deferNow {
        AskedLess(groups[pass[j]], keys[pass[j]], answer, computed, maxHit, limit);
      }
      BoundedStep(pass[j], keys, answer, computed, limit, maxHit, cut,
          if deferNow then Deferred(cut) else Tightened(cut));
      if !defer' && (again' == [] || onlyFull') {
        if !onlyFull' && cut < maxHit {
          SlidingStillOpen(pass, j);
        }
        ConfirmStep(pass, j, onlyFull, onlyFull', keys, answer, computed, maxHit, cut);
      }
    }

    /** One round over `pass`; `again` lists the groups that have to be asked once more. */
    method LookupPass(pass: seq<nat>, keys: seq<seq<Key>>, answer: Oracle, computed: nat, ghost limit: int,
                      search: Search)
      returns (gaveUp: bool, again: seq<nat>, search': Search,
               ghost onlyFull: bool, ghost sawSliding: bool)
      requires Valid() && |keys| == |groups|
      requires forall a :: 0 <= a < |pass| ==> pass[a] < |groups|
      requires search.Valid(computed, limit)
      requires Settled(answer) ==> search.excluded == SkippedGroups()
      requires Settled(answer) ==>
                 PassInv(keys, answer, computed, limit, pass, 0, [], false, false, search.maxHit, search.numHit,
                     search.defer)
      ensures search.excluded <= search'.excluded
      ensures Settled(answer) ==> search'.excluded == search.excluded
      ensures !gaveUp ==> search'.Valid(computed, limit)
      ensures !gaveUp ==> forall a :: 0 <= a < |again| ==> again[a] < |groups|
      ensures !gaveUp ==> search'.Potential(limit) <= search.Potential(limit)
      ensures !gaveUp && again != [] ==> search'.Potential(limit) < search.Potential(limit)
      ensures Settled(answer) && gaveUp ==>
                SomeTooShort(keys, answer, computed, limit)
      ensures Settled(answer) && !gaveUp ==>
                PassInv(keys, answer, computed, limit, pass, |pass|, again, onlyFull, sawSliding,
                        search'.maxHit, search'.numHit, search'.defer)
    {
      hide PassInv, SomeTooShort, SomeUndecided, OutcomeSound, Bounded;
      gaveUp, again, search', onlyFull := false, [], search, false;
      var lookedUpSliding := false;
      var j := 0;
      while j < |pass|
        invariant 0 <= j <= |pass|
        invariant search.excluded <= search'.excluded
        invariant forall a :: 0 <= a < |again| ==> again[a] < |groups|
        invariant search'.Valid(computed, limit)
        invariant search'.Potential(limit) <= search.Potential(limit)
        invariant again != [] ==> search'.Potential(limit) < search.Potential(limit)
        invariant Settled(answer) ==> search'.excluded == SkippedGroups()
        invariant Settled(answer) ==>
                    PassInv(keys, answer, computed, limit, pass, j, again, onlyFull, lookedUpSliding,
                            search'.maxHit, search'.numHit, search'.defer)
      {
        ghost var was := search';
        var i := pass[j];
        var outcome, asked, verified :=
          Tighten(i, keys[i], search'.maxHit, computed, answer, search'.asked, search'.eagleVerified);
        search' := search'.(asked := asked, eagleVerified := verified);
        if Settled(answer) {
          PassGroupIsReusable(keys, answer, computed, limit, pass, j, again, onlyFull, lookedUpSliding,
                              was.maxHit, was.numHit, was.defer);
        }
        if outcome.TooFew? {
          if Settled(answer) { GaveUpRightly(i, keys, answer, computed, limit, was.maxHit); }
          return true, again, search', onlyFull, lookedUpSliding;
        }
        if outcome.Exempt? {
          search' := search'.(excluded := search'.excluded + {i});
          j := j + 1;
          continue;
        }
        search' := search'.(maxHit := outcome.maxHit, defer := search'.defer || outcome.Deferred?);
        var newNumHit := search'.maxHit - computed;
        ghost var wasAgain, wasOnlyFull := again, onlyFull;
        if newNumHit < search'.numHit {
          if !groups[i].isEagle {
            search' := search'.(eagleVerified := {});
          }
          if search'.defer {
            search' := search'.(defer := false);
            again := Remaining(LookupGroups(), search'.excluded);
            onlyFull := false;
          } else if lookedUpSliding && again == [] {
            again := Remaining(slidingGroups, search'.excluded);
            onlyFull := true;
          }
        }
        if Settled(answer) {
          PassStep(keys, answer, computed, limit, pass, j, wasAgain, wasOnlyFull, lookedUpSliding,
                   was.maxHit, was.numHit, was.defer, outcome.maxHit, outcome.Deferred?, again, onlyFull,
                   search'.defer);
        }
        lookedUpSliding := lookedUpSliding || groups[i].window.Some?;
        search' := search'.(numHit := newNumHit);
        j := j + 1;
      }
      sawSliding := lookedUpSliding;
    }

    lemma PassGroupIsReusable(keys: seq<seq<Key>>, answer: Oracle, computed: nat, limit: int,
                              pass: seq<nat>, j: nat, again: seq<nat>, onlyFull: bool,
                              lookedUpSliding: bool, maxHit: int, numHit: int, defer: bool)
      requires Valid() && |keys| == |groups| && j < |pass| && pass[j] < |groups|
      requires PassInv(keys, answer, computed, limit, pass, j, again, onlyFull, lookedUpSliding, maxHit, numHit, defer)
      ensures !groups[pass[j]].skipExternalReuse
      ensures Bounded(keys, answer, computed, limit, maxHit)
    {
      assert pass[j] in pass;
    }

    lemma GaveUpRightly(i: nat, keys: seq<seq<Key>>, answer: Oracle, computed: nat, limit: int, maxHit: int)
      requires Valid() && |keys| == |groups| && i < |groups| && !groups[i].skipExternalReuse
      requires Bounded(keys, answer, computed, limit, maxHit)
      requires OutcomeSound(groups[i], keys[i], maxHit, computed, answer, TooFew)
      ensures SomeTooShort(keys, answer, computed, limit)
    {
      forall b: nat | b <= limit && AllSupport(keys, answer, computed, b)
        ensures b - computed < groups[i].tokensPerChunk
      {
        assert Supports(groups[i], keys[i], answer, computed, b);
      }
      assert TooShort(i, keys, answer, computed, limit);
    }

    lemma PassStarts(keys: seq<seq<Key>>, answer: Oracle, computed: nat, limit: int)
      requires Valid() && |keys| == |groups|
      ensures PassInv(keys, answer, computed, limit, Remaining(LookupGroups(), SkippedGroups()), 0, [], false, false,
          limit, 0, false)
    {
      var all := Remaining(LookupGroups(), SkippedGroups());
      assert all[0..] == all;
    }

    /** A finished pass leaves exactly the groups in `again` to be confirmed. */
    lemma PassEnds(keys: seq<seq<Key>>, answer: Oracle, computed: nat, limit: int, pass: seq<nat>, again: seq<nat>,
                   onlyFull: bool, lookedUpSliding: bool, maxHit: int, numHit: int, defer: bool)
      requires Valid() && |keys| == |groups| && pass != []
      requires PassInv(keys, answer, computed, limit, pass, |pass|, again, onlyFull, lookedUpSliding, maxHit, numHit,
          defer)
      ensures again != [] ==> PassInv(keys, answer, computed, limit, again, 0, [], false, false, maxHit, numHit, defer)
      ensures again == [] && !defer ==> Confirmed([], false, keys, answer, computed, maxHit)
      ensures numHit == maxHit - computed > 0
      ensures Bounded(keys, answer, computed, limit, maxHit)
      ensures defer ==> SomeUndecided(keys, answer, computed, limit)
    {
      assert pass[|pass|..] == [];
      if again != [] {
        assert again[0..] == again;
        assert forall a :: 0 <= a < |again| ==> again[a] in again;
      }
    }

    lemma NothingBeingLoaded(keys: seq<seq<Key>>, computed: nat, hits: nat, excluded: set<nat>)
      requires Valid() && |keys| == |groups| && chunksBeingLoaded == {}
      ensures ClearToLoad(keys, computed, hits, excluded)
    {
    }

    method NoneBeingLoaded(keys: seq<seq<Key>>, computed: nat, hits: nat, excluded: set<nat>) returns (clear: bool)
      requires Valid() && |keys| == |groups|
      ensures clear <==> ClearToLoad(keys, computed, hits, excluded)
    {
      hide KeysToLoad, AnyBeingLoaded;
      if chunksBeingLoaded == {} {
        NothingBeingLoaded(keys, computed, hits, excluded);
        return true;
      }
      for i := 0 to |groups|
        invariant forall g :: 0 <= g < i && g !in excluded ==> !AnyBeingLoaded(KeysToLoad(g, keys, computed, hits))
      {
        if i !in excluded && AnyBeingLoaded(KeysToLoad(i, keys, computed, hits)) {
          return false;
        }
      }
      clear := true;
    }

    /** Ask the groups until they agree on a boundary, or there is nothing to load. */
    method Converge(keys: seq<seq<Key>>, answer: Oracle, computed: nat, limit: int)
      returns (gaveUp: bool, search: Search)
      requires Valid() && |keys| == |groups|
      ensures SkippedGroups() <= search.excluded
      ensures Settled(answer) ==> search.excluded == SkippedGroups()
      ensures !gaveUp ==> search.Valid(computed, limit)
      ensures Settled(answer) && gaveUp ==> SomeTooShort(keys, answer, computed, limit)
      ensures Settled(answer) && !gaveUp && search.defer ==> SomeUndecided(keys, answer, computed, limit)
      ensures Settled(answer) && !gaveUp && Remaining(LookupGroups(), SkippedGroups()) == [] ==> search.numHit == 0
      ensures Settled(answer) && !gaveUp && Remaining(LookupGroups(), SkippedGroups()) != [] ==>
                && search.numHit == search.maxHit - computed > 0
                && Bounded(keys, answer, computed, limit, search.maxHit)
                && (!search.defer ==> Confirmed([], false, keys, answer, computed, search.maxHit))
    {
      hide PassInv, Bounded, Confirmed, SomeTooShort, SomeUndecided;
      gaveUp, search := false, Search(limit, 0, false, SkippedGroups(), {}, 0);
      var lookup: seq<nat> := Remaining(LookupGroups(), search.excluded);
      ghost var all := lookup;
      PassStarts(keys, answer, computed, limit);
      while lookup != []
        invariant SkippedGroups() <= search.excluded
        invariant forall a :: 0 <= a < |lookup| ==> lookup[a] < |groups|
        invariant search.Valid(computed, limit)
        invariant Settled(answer) ==> search.excluded == SkippedGroups()
        invariant Settled(answer) && lookup != [] ==>
                    PassInv(keys, answer, computed, limit, lookup, 0, [], false, false, search.maxHit, search.numHit,
                        search.defer)
        invariant Settled(answer) && search.defer ==> SomeUndecided(keys, answer, computed, limit)
        invariant Settled(answer) && lookup == [] && all != [] ==>
                    && search.numHit == search.maxHit - computed > 0
                    && Bounded(keys, answer, computed, limit, search.maxHit)
                    && (!search.defer ==> Confirmed([], false, keys, answer, computed, search.maxHit))
        invariant Settled(answer) && all == [] ==> search.numHit == 0 && lookup == []
        decreases search.Potential(limit), |lookup|
      {
        var again, next;
        ghost var onlyFull, saw;
        gaveUp, again, next, onlyFull, saw := LookupPass(lookup, keys, answer, computed, limit, search);
        if gaveUp {
          return true, next;
        }
        if Settled(answer) {
          PassEnds(keys, answer, computed, limit, lookup, again, onlyFull, saw, next.maxHit, next.numHit, next.defer);
        }
        lookup, search := again, next;
      }
    }

    lemma ReachedIsGreatest(keys: seq<seq<Key>>, answer: Oracle, computed: nat, limit: int, maxHit: nat)
      requires Valid() && |keys| == |groups|
      requires Bounded(keys, answer, computed, limit, maxHit)
      requires Confirmed([], false, keys, answer, computed, maxHit)
      ensures IsGreatest(keys, answer, computed, limit, maxHit)
    {
    }

    /** A boundary the whole request allows: any within the prompt or, as the last prompt token is recomputed
        when some group slides, any up to a position before the last token, an aligned one if Mamba state is only
        kept at those. */
    ghost predicate Allowed(numTokens: nat, boundary: int) {
      if forall i :: 0 <= i < |groups| ==> groups[i].window.None? then boundary <= numTokens
      else exists top: int :: boundary <= top < numTokens && AlignedAt(top)
    }

    predicate AlignedAt(top: int) {
      mambaAlign.Some? && mambaAlign.value > 0 ==> top % mambaAlign.value == 0
    }

    lemma AllowedIff(numTokens: nat, boundary: int)
      requires Valid()
      ensures Allowed(numTokens, boundary) <==> boundary <= HitLimit(numTokens)
    {
      assert slidingGroups == [] <==> forall i :: 0 <= i < |groups| ==> groups[i].window.None? by {
        if slidingGroups != [] {
          assert slidingGroups[0] in slidingGroups;
        }
      }
      if slidingGroups != [] {
        assert AlignedAt(HitLimit(numTokens)) && HitLimit(numTokens) < numTokens by {
          TopAligned(numTokens);
        }
        if mambaAlign.Some? {
          forall top: int | boundary <= top < numTokens && AlignedAt(top) ensures top <= HitLimit(numTokens) {
            AlignedBelow(mambaAlign.value, top, numTokens - 1);
          }
        }
      }
    }

    lemma TopAligned(numTokens: nat)
      requires Valid() && slidingGroups != []
      ensures AlignedAt(HitLimit(numTokens)) && HitLimit(numTokens) < numTokens
    {
      if mambaAlign.Some? {
        var m, n := mambaAlign.value, numTokens - 1;
        assert n == n / m * m + n % m;
        MultipleIs(m, n / m);
      }
    }

    /** All groups taking part can serve a load up to this boundary. */
    ghost predicate AllServe(keys: seq<seq<Key>>, answer: Oracle, computed: nat, boundary: nat)
      requires Valid() && |keys| == |groups|
    {
      forall i :: 0 <= i < |groups| && !groups[i].skipExternalReuse ==>
        Serves(groups[i], keys[i], answer, computed, boundary)
    }

    lemma AllServeIff(keys: seq<seq<Key>>, answer: Oracle, computed: nat, boundary: nat)
      requires Valid() && |keys| == |groups|
      ensures AllServe(keys, answer, computed, boundary) <==> AllSupport(keys, answer, computed, boundary)
    {
      hide Serves, Supports;
      forall i | 0 <= i < |groups|
        ensures Supports(groups[i], keys[i], answer, computed, boundary)
           <==> Serves(groups[i], keys[i], answer, computed, boundary)
      {
        SupportsIff(groups[i], keys[i], answer, computed, boundary);
      }
    }

    /** The greatest boundary allowed that all groups taking part can serve. */
    ghost predicate Best(keys: seq<seq<Key>>, answer: Oracle, computed: nat, numTokens: nat, boundary: nat)
      requires Valid() && |keys| == |groups|
    {
      && Allowed(numTokens, boundary) && AllServe(keys, answer, computed, boundary)
      && forall b: nat :: Allowed(numTokens, b) && AllServe(keys, answer, computed, b) ==> b <= boundary
    }

    /** Some group taking part has chunks longer than any load that all could serve. */
    ghost predicate NothingWorthwhile(keys: seq<seq<Key>>, answer: Oracle, computed: nat, numTokens: nat)
      requires Valid() && |keys| == |groups|
    {
      exists i :: 0 <= i < |groups| && !groups[i].skipExternalReuse && AllShorter(i, keys, answer, computed, numTokens)
    }

    ghost predicate AllShorter(i: nat, keys: seq<seq<Key>>, answer: Oracle, computed: nat, numTokens: nat)
      requires Valid() && |keys| == |groups| && i < |groups|
    {
      forall b: nat :: Allowed(numTokens, b) && AllServe(keys, answer, computed, b) ==>
                         b - computed < groups[i].tokensPerChunk
    }

    /** The tier is undecided about a chunk that some allowed load would read of a group taking part. */
    ghost predicate StillUndecided(keys: seq<seq<Key>>, answer: Oracle, computed: nat, numTokens: nat)
      requires Valid() && |keys| == |groups|
    {
      exists i, b: int :: 0 <= i < |groups| && !groups[i].skipExternalReuse && Allowed(numTokens, b)
                          && UndecidedChunk(groups[i], keys[i], answer, computed, b)
    }

    /** A load of `hits` tokens reads a chunk of this group that is already being loaded. */
    ghost predicate Collides(i: nat, keys: seq<seq<Key>>, computed: nat, hits: nat)
      requires Valid() && |keys| == |groups| && i < |groups|
      reads this
    {
      exists chunk: nat :: chunk < |keys[i]| && Needed(groups[i], |keys[i]|, chunk, computed, computed + hits)
                           && keys[i][chunk] in chunksBeingLoaded
    }

    lemma CollidesIff(i: nat, keys: seq<seq<Key>>, computed: nat, hits: nat)
      requires Valid() && |keys| == |groups| && i < |groups|
      ensures Collides(i, keys, computed, hits) <==> AnyBeingLoaded(KeysToLoad(i, keys, computed, hits))
    {
      hide Needed, KeysToLoad;
      var read := KeysToLoad(i, keys, computed, hits);
      if Collides(i, keys, computed, hits) {
        var chunk: nat :| chunk < |keys[i]| && Needed(groups[i], |keys[i]|, chunk, computed, computed + hits)
                          && keys[i][chunk] in chunksBeingLoaded;
        var k := ReadOf(i, keys, computed, hits, chunk);
        assert read[k] in chunksBeingLoaded;
      }
      if AnyBeingLoaded(read) {
        var k :| 0 <= k < |read| && read[k] in chunksBeingLoaded;
        var chunk := ChunkOf(i, keys, computed, hits, k);
        assert keys[i][chunk] in chunksBeingLoaded;
      }
    }

    lemma ReadIs(i: nat, keys: seq<seq<Key>>, computed: nat, hits: nat) returns (first: nat, end: nat)
      requires Valid() && |keys| == |groups| && i < |groups|
      ensures end == EndChunk(groups[i], |keys[i]|, computed + hits) <= |keys[i]|
      ensures var start := StartChunk(groups[i], |keys[i]|, computed);
              first == if groups[i].window.Some? && groups[i].window.value < end - start
                       then end - groups[i].window.value else start
      ensures KeysToLoad(i, keys, computed, hits) == if first <= end then keys[i][first..end] else []
    {
      var g, n := groups[i], |keys[i]|;
      var start := StartChunk(g, n, computed);
      end := EndChunk(g, n, computed + hits);
      first := if g.window.Some? && g.window.value < end - start then end - g.window.value else start;
    }

    /** A needed chunk is among those read. */
    lemma ReadOf(i: nat, keys: seq<seq<Key>>, computed: nat, hits: nat, chunk: nat) returns (k: nat)
      requires Valid() && |keys| == |groups| && i < |groups| && chunk < |keys[i]|
      requires Needed(groups[i], |keys[i]|, chunk, computed, computed + hits)
      ensures k < |KeysToLoad(i, keys, computed, hits)| && KeysToLoad(i, keys, computed, hits)[k] == keys[i][chunk]
    {
      hide Needed, KeysToLoad, StartChunk, EndChunk;
      var first, end := ReadIs(i, keys, computed, hits);
      NeededAt(groups[i], |keys[i]|, computed, computed + hits, chunk);
      k := chunk - first;
    }

    /** A chunk read is needed. */
    lemma ChunkOf(i: nat, keys: seq<seq<Key>>, computed: nat, hits: nat, k: nat) returns (chunk: nat)
      requires Valid() && |keys| == |groups| && i < |groups| && k < |KeysToLoad(i, keys, computed, hits)|
      ensures chunk < |keys[i]| && Needed(groups[i], |keys[i]|, chunk, computed, computed + hits)
      ensures keys[i][chunk] == KeysToLoad(i, keys, computed, hits)[k]
    {
      hide Needed, KeysToLoad, StartChunk, EndChunk;
      var first, end := ReadIs(i, keys, computed, hits);
      chunk := first + k;
      NeededAt(groups[i], |keys[i]|, computed, computed + hits, chunk);
    }

    /** The greatest load that all could serve, if any group takes part, collides with one in progress. */
    ghost predicate BestCollides(keys: seq<seq<Key>>, answer: Oracle, computed: nat, numTokens: nat)
      requires Valid() && |keys| == |groups|
      reads this
    {
      exists hits: nat, i: nat ::
        && i < |groups| && !groups[i].skipExternalReuse && Collides(i, keys, computed, hits)
        && (SomeTakesPart() ==> hits > 0 && Best(keys, answer, computed, numTokens, computed + hits))
    }

    ghost predicate SomeTakesPart() {
      exists i :: 0 <= i < |groups| && !groups[i].skipExternalReuse
    }

    lemma HeldUpRightly(keys: seq<seq<Key>>, answer: Oracle, computed: nat, limit: int, hits: nat)
      requires Valid() && |keys| == |groups| && !ClearToLoad(keys, computed, hits, SkippedGroups())
      requires Remaining(LookupGroups(), SkippedGroups()) != [] ==>
                 hits > 0 && computed + hits <= limit && IsGreatest(keys, answer, computed, limit, computed + hits)
      ensures Delayed(keys, answer, computed, limit)
    {
      hide IsGreatest, KeysToLoad, AnyBeingLoaded;
      assert HeldUp(keys, answer, computed, limit, hits);
    }

    lemma BestIff(keys: seq<seq<Key>>, answer: Oracle, computed: nat, numTokens: nat, boundary: nat)
      requires Valid() && |keys| == |groups|
      ensures Best(keys, answer, computed, numTokens, boundary) <==>
                boundary <= HitLimit(numTokens)
                && IsGreatest(keys, answer, computed, HitLimit(numTokens), boundary)
    {
      hide Allowed, HitLimit, AllServe, AllSupport;
      forall b: nat
        ensures Allowed(numTokens, b) <==> b <= HitLimit(numTokens)
        ensures AllServe(keys, answer, computed, b) <==> AllSupport(keys, answer, computed, b)
      {
        AllowedIff(numTokens, b);
        AllServeIff(keys, answer, computed, b);
      }
    }

    lemma ShorterIff(i: nat, keys: seq<seq<Key>>, answer: Oracle, computed: nat, numTokens: nat)
      requires Valid() && |keys| == |groups| && i < |groups|
      ensures AllShorter(i, keys, answer, computed, numTokens) <==>
                TooShort(i, keys, answer, computed, HitLimit(numTokens))
    {
      hide Allowed, HitLimit, AllServe, AllSupport;
      forall b: nat
        ensures Allowed(numTokens, b) <==> b <= HitLimit(numTokens)
        ensures AllServe(keys, answer, computed, b) <==> AllSupport(keys, answer, computed, b)
      {
        AllowedIff(numTokens, b);
        AllServeIff(keys, answer, computed, b);
      }
    }

    lemma NothingIff(keys: seq<seq<Key>>, answer: Oracle, computed: nat, numTokens: nat)
      requires Valid() && |keys| == |groups| && SomeTooShort(keys, answer, computed, HitLimit(numTokens))
      ensures NothingWorthwhile(keys, answer, computed, numTokens)
    {
      hide AllShorter, TooShort, HitLimit;
      var i :| 0 <= i < |groups| && !groups[i].skipExternalReuse
               && TooShort(i, keys, answer, computed, HitLimit(numTokens));
      ShorterIff(i, keys, answer, computed, numTokens);
    }

    lemma UndecidedRightly(keys: seq<seq<Key>>, answer: Oracle, computed: nat, numTokens: nat)
      requires Valid() && |keys| == |groups| && SomeUndecided(keys, answer, computed, HitLimit(numTokens))
      ensures StillUndecided(keys, answer, computed, numTokens)
    {
      hide UndecidedAbout, UndecidedChunk, HitLimit, Allowed;
      var i :| 0 <= i < |groups| && !groups[i].skipExternalReuse
               && UndecidedAbout(groups[i], keys[i], answer, computed, HitLimit(numTokens));
      UndecidedIff(groups[i], keys[i], answer, computed, HitLimit(numTokens));
      AllowedIff(numTokens, HitLimit(numTokens));
    }

    lemma TakesPartIff()
      requires Valid()
      ensures SomeTakesPart() <==> Remaining(LookupGroups(), SkippedGroups()) != []
    {
      var left := Remaining(LookupGroups(), SkippedGroups());
      if SomeTakesPart() {
        var i :| 0 <= i < |groups| && !groups[i].skipExternalReuse;
        assert i in left;
      }
      if left != [] {
        assert left[0] in left;
      }
    }

    lemma DelayedRightly(keys: seq<seq<Key>>, answer: Oracle, computed: nat, numTokens: nat)
      requires Valid() && |keys| == |groups| && Delayed(keys, answer, computed, HitLimit(numTokens))
      ensures BestCollides(keys, answer, computed, numTokens)
    {
      hide IsGreatest, Best, KeysToLoad, AnyBeingLoaded, Collides, HitLimit, SomeTakesPart;
      var hits: nat :| HeldUp(keys, answer, computed, HitLimit(numTokens), hits);
      var i :| 0 <= i < |groups| && !groups[i].skipExternalReuse && AnyBeingLoaded(KeysToLoad(i, keys, computed, hits));
      CollidesIff(i, keys, computed, hits);
      TakesPartIff();
      BestIff(keys, answer, computed, numTokens, computed + hits);
    }

    lemma ClearRightly(keys: seq<seq<Key>>, computed: nat, hits: nat, excluded: set<nat>)
      requires Valid() && |keys| == |groups| && ClearToLoad(keys, computed, hits, excluded)
      ensures forall i :: 0 <= i < |groups| && i !in excluded ==> !Collides(i, keys, computed, hits)
    {
      hide KeysToLoad, AnyBeingLoaded, Collides;
      forall i | 0 <= i < |groups| && i !in excluded ensures !Collides(i, keys, computed, hits) {
        CollidesIff(i, keys, computed, hits);
      }
    }

    /** How many tokens past the locally computed ones can be loaded; None asks the
        scheduler to try again later. */
    method Lookup(req: RequestState, answer: Oracle) returns (result: Option<nat>)
      requires Valid() && |req.offloadKeys| == |groups|
      requires forall i :: 0 <= i < |groups| ==>
                 req.numTokens / groups[i].tokensPerChunk <= |req.offloadKeys[i]|
      modifies req`lookupExcluded
      ensures SkippedGroups() <= req.lookupExcluded
      ensures Settled(answer) ==> req.lookupExcluded == SkippedGroups()
      ensures result.Some? && result.value > 0 ==> Allowed(req.numTokens, req.numLocallyComputed + result.value)
      ensures result.Some? && result.value > 0 && (exists i :: 0 <= i < |groups| && groups[i].window.Some?) ==>
                req.numLocallyComputed + result.value < req.numTokens
      ensures Settled(answer) && result.Some? && result.value > 0 ==>
                Best(req.offloadKeys, answer, req.numLocallyComputed, req.numTokens,
                     req.numLocallyComputed + result.value)
      ensures Settled(answer) && result == Some(0) && SomeTakesPart() ==>
                NothingWorthwhile(req.offloadKeys, answer, req.numLocallyComputed, req.numTokens)
      ensures Settled(answer) && result.None? ==>
                || StillUndecided(req.offloadKeys, answer, req.numLocallyComputed, req.numTokens)
                || BestCollides(req.offloadKeys, answer, req.numLocallyComputed, req.numTokens)
      ensures result.Some? && result.value > 0 ==>
                forall i :: 0 <= i < |groups| && i !in req.lookupExcluded ==>
                  !Collides(i, req.offloadKeys, req.numLocallyComputed, result.value)
    {
      hide HitLimit, IsGreatest, SomeTooShort, SomeUndecided, ClearToLoad, Delayed, Best, NothingWorthwhile,
           StillUndecided, BestCollides, Collides, SomeTakesPart;
      req.lookupExcluded := SkippedGroups();
      var excluded;
      result, excluded := Resolve(req.offloadKeys, answer, req.numLocallyComputed, HitLimit(req.numTokens));
      req.lookupExcluded := excluded;
      Restated(req.offloadKeys, answer, req.numLocallyComputed, req.numTokens, result, excluded);
    }

    /** The outcome of the search within the limit, in terms of the boundaries allowed and what they need. */
    lemma Restated(keys: seq<seq<Key>>, answer: Oracle, computed: nat, numTokens: nat, result: Option<nat>,
                   excluded: set<nat>)
      requires Valid() && |keys| == |groups|
      ensures result.Some? && result.value > 0 && computed + result.value <= HitLimit(numTokens) ==>
                && Allowed(numTokens, computed + result.value)
                && (IsGreatest(keys, answer, computed, HitLimit(numTokens), computed + result.value) ==>
                      Best(keys, answer, computed, numTokens, computed + result.value))
      ensures SomeTooShort(keys, answer, computed, HitLimit(numTokens)) ==>
                NothingWorthwhile(keys, answer, computed, numTokens)
      ensures SomeUndecided(keys, answer, computed, HitLimit(numTokens)) ==>
                StillUndecided(keys, answer, computed, numTokens)
      ensures Delayed(keys, answer, computed, HitLimit(numTokens)) ==> BestCollides(keys, answer, computed, numTokens)
      ensures result.Some? && ClearToLoad(keys, computed, result.value, excluded) ==>
                forall i :: 0 <= i < |groups| && i !in excluded ==> !Collides(i, keys, computed, result.value)
      ensures SomeTakesPart() <==> Remaining(LookupGroups(), SkippedGroups()) != []
    {
      hide HitLimit, IsGreatest, SomeTooShort, SomeUndecided, ClearToLoad, Delayed, Best, NothingWorthwhile,
           StillUndecided, BestCollides, Collides, SomeTakesPart, Allowed;
      TakesPartIff();
      if result.Some? {
        AllowedIff(numTokens, computed + result.value);
        BestIff(keys, answer, computed, numTokens, computed + result.value);
        if ClearToLoad(keys, computed, result.value, excluded) {
          ClearRightly(keys, computed, result.value, excluded);
        }
      }
      if SomeTooShort(keys, answer, computed, HitLimit(numTokens)) {
        NothingIff(keys, answer, computed, numTokens);
      }
      if SomeUndecided(keys, answer, computed, HitLimit(numTokens)) {
        UndecidedRightly(keys, answer, computed, numTokens);
      }
      if Delayed(keys, answer, computed, HitLimit(numTokens)) {
        DelayedRightly(keys, answer, computed, numTokens);
      }
    }

    /** The outcome of the search: a load, nothing to load, or a reason to try again. */
    method Resolve(keys: seq<seq<Key>>, answer: Oracle, computed: nat, limit: int)
      returns (result: Option<nat>, excluded: set<nat>)
      requires Valid() && |keys| == |groups|
      ensures SkippedGroups() <= excluded && (Settled(answer) ==> excluded == SkippedGroups())
      ensures result.Some? && result.value > 0 ==>
                computed + result.value <= limit && ClearToLoad(keys, computed, result.value, excluded)
      ensures Settled(answer) && result.Some? && result.value > 0 ==>
                IsGreatest(keys, answer, computed, limit, computed + result.value)
      ensures Settled(answer) && result == Some(0) && Remaining(LookupGroups(), SkippedGroups()) != [] ==>
                SomeTooShort(keys, answer, computed, limit)
      ensures Settled(answer) && result.None? ==>
                SomeUndecided(keys, answer, computed, limit) || Delayed(keys, answer, computed, limit)
    {
      hide IsGreatest, SomeTooShort, SomeUndecided, ClearToLoad, Bounded, Confirmed, Delayed;
      excluded := SkippedGroups();
      var gaveUp, search := Converge(keys, answer, computed, limit);
      if gaveUp {
        return Some(0), excluded;
      }
      excluded := search.excluded;
      if search.defer {
        return None, excluded;
      }
      if Settled(answer) && search.numHit > 0 {
        ReachedIsGreatest(keys, answer, computed, limit, search.maxHit);
      }
      var clear := NoneBeingLoaded(keys, computed, search.numHit, search.excluded);
      result := if clear then Some(search.numHit) else None;
      if Settled(answer) && !clear {
        HeldUpRightly(keys, answer, computed, limit, search.numHit);
      }
    }
  }
}
