/** Logits over a paged KV cache: the split of a context over programs, and the software-pipelined
    loop that runs one split, loading each half-chunk while the one before is computed.
 */
module PagedLogits {
  import opened Division

  /** What is written for a position: the logit of a row of a cache block, or minus infinity. */
  datatype Cell = Logit(block: nat, row: nat) | MinusInfinity

  /** A loaded half-chunk: where in the cache its first row lies. */
  datatype Tile = Tile(block: nat, row: nat)

  /** Rows per half-chunk (a pipeline stage) and per cache block, the context and the output row. */
  datatype Shape = Shape(stage: nat, kvBlock: nat, context: nat, maxLength: nat, indices: seq<nat>) {
    function Chunk(): nat {
      2 * stage
    }

    function Blocks(): nat
      requires kvBlock > 0
    {
      (context + kvBlock - 1) / kvBlock
    }

    predicate Valid() {
      && stage > 0 && kvBlock > 0 && kvBlock % Chunk() == 0
      && Blocks() <= |indices|
    }

    /** The cell of a position by definition: its row of the block its page table entry names. */
    function Naive(p: nat): Cell
      requires Valid()
    {
      if p < context then
        BlockOf(p, kvBlock, context);
        Logit(indices[p / kvBlock], p % kvBlock)
      else MinusInfinity
    }
  }

  /** A position inside the context lies in a block of the context. */
  lemma BlockOf(p: nat, kvBlock: nat, context: nat)
    requires kvBlock > 0 && p < context
    ensures p / kvBlock < (context + kvBlock - 1) / kvBlock
  {
    var n := (context + kvBlock - 1) / kvBlock;
    assert n * kvBlock > context - 1;
    if n <= p / kvBlock {
      MulLe(n, p / kvBlock, kvBlock);
    }
  }

  /** Where the rows of the c-th chunk lie, when a block holds m chunks. */
  lemma ChunkRows(c: nat, m: nat, chunk: nat, r: nat)
    requires m > 0 && r < chunk
    ensures m * chunk > 0
    ensures (c * chunk + r) / (m * chunk) == c / m && (c * chunk + r) % (m * chunk) == c % m * chunk + r
  {
    var q, s := c / m, c % m;
    assert c == q * m + s;
    assert (q * m + s) * chunk == q * (m * chunk) + s * chunk;
    MulStep(s, m, chunk);
    DivUnique(c * chunk + r, m * chunk, q, s * chunk + r);
  }

  /** The next chunk is in the same block, or the first of the next. */
  lemma NextChunk(c: nat, m: nat)
    requires m > 0
    ensures c % m == m - 1 ==> (c + 1) / m == c / m + 1 && (c + 1) % m == 0
    ensures c % m != m - 1 ==> (c + 1) / m == c / m && (c + 1) % m == c % m + 1
  {
    assert c == c / m * m + c % m;
    if c % m == m - 1 {
      assert (c / m + 1) * m == c / m * m + m;
      DivUnique(c + 1, m, c / m + 1, 0);
    } else {
      DivUnique(c + 1, m, c / m, c % m + 1);
    }
  }

  /** The writes to positions lo to hi of the output row: each of them received its cell, once, and no
      other position anything. */
  ghost predicate Written(sh: Shape, before: seq<seq<Cell>>, now: seq<seq<Cell>>, lo: nat, hi: nat)
    requires sh.Valid()
  {
    && |now| == |before| == sh.maxLength
    && forall p :: 0 <= p < |now| ==> now[p] == if lo <= p < hi then before[p] + [sh.Naive(p)] else before[p]
  }

  lemma WrittenOn(sh: Shape, a: seq<seq<Cell>>, b: seq<seq<Cell>>, c: seq<seq<Cell>>, lo: nat, mid: nat, hi: nat)
    requires sh.Valid() && lo <= mid <= hi && Written(sh, a, b, lo, mid) && Written(sh, b, c, mid, hi)
    ensures Written(sh, a, c, lo, hi)
  {
    hide Shape.Naive;
  }

  /** The tile holds the rows of the stage at position `at`, whose block is that of the page table. */
  ghost predicate Holds(sh: Shape, tile: Tile, at: nat)
    requires sh.Valid()
  {
    forall p: nat :: at <= p < at + sh.stage && p < sh.context ==> sh.Naive(p) == Logit(tile.block, tile.row + (p - at))
  }

  /** Store a stage's logits, one lane at a time; lanes past the output row are masked off, lanes past
      the context become minus infinity where the stage is masked. */
  method StoreStage(sh: Shape, tile: Tile, at: nat, masked: bool, out: array<seq<Cell>>)
    requires sh.Valid() && out.Length == sh.maxLength && Holds(sh, tile, at)
    requires !masked ==> at + sh.stage <= sh.context
    modifies out
    ensures Written(sh, old(out[..]), out[..], at, at + sh.stage)
  {
    hide Shape.Naive;
    for lane := 0 to sh.stage
      invariant Written(sh, old(out[..]), out[..], at, at + lane)
    {
      var p := at + lane;
      if p < sh.maxLength {
        var cell := if masked && p > sh.context - 1 then MinusInfinity else Logit(tile.block, tile.row + lane);
        NaiveBeyond(sh, p);
        out[p] := out[p] + [cell];
      }
    }
  }

  lemma NaiveBeyond(sh: Shape, p: nat)
    requires sh.Valid()
    ensures p >= sh.context ==> sh.Naive(p) == MinusInfinity
  {
  }

  /** A tile loaded from the block of chunk c holds either half of the chunk. */
  lemma TileHolds(sh: Shape, c: nat, m: nat, half: nat, block: nat)
    requires sh.Valid() && sh.kvBlock == m * sh.Chunk() && half <= 1
    requires c / m < |sh.indices| && block == sh.indices[c / m]
    ensures var at := c * sh.Chunk() + half * sh.stage; Holds(sh, Tile(block, at % sh.kvBlock), at)
  {
    var chunk, at := sh.Chunk(), c * sh.Chunk() + half * sh.stage;
    ChunkRows(c, m, chunk, half * sh.stage);
    forall p: nat | at <= p < at + sh.stage && p < sh.context
      ensures sh.Naive(p) == Logit(block, at % sh.kvBlock + (p - at))
    {
      ChunkRows(c, m, chunk, p - c * chunk);
    }
  }

  /** The page table entry of a block, or anything where the load is masked off. */
  function Entry(sh: Shape, block: nat): nat
    requires sh.Valid()
  {
    if block < sh.Blocks() then sh.indices[block] else 0
  }

  /** The pipeline's variables at the top of its loop, when chunk c is half written: the two page table
      entries in hand, the next one to load, and how many stages of the block have been loaded. */
  ghost predicate Primed(sh: Shape, c: nat, m: nat, next0: nat, next1: nat, blockIdx: nat, rank: nat)
    requires sh.Valid()
  {
    && m > 0 && sh.kvBlock == m * sh.Chunk()
    && c * sh.Chunk() < sh.context && c / m < sh.Blocks()
    && next0 == sh.indices[c / m] && next1 == Entry(sh, c / m + 1)
    && blockIdx == c / m + 2 && rank == 2 * (c % m) + 2
  }

  lemma ChunkInside(sh: Shape, c: nat, m: nat)
    requires sh.Valid() && m > 0 && sh.kvBlock == m * sh.Chunk() && c * sh.Chunk() < sh.context
    ensures c / m < sh.Blocks()
  {
    ChunkRows(c, m, sh.Chunk(), 0);
    BlockOf(c * sh.Chunk(), sh.kvBlock, sh.context);
  }

  lemma StagesPerBlock(sh: Shape, c: nat, m: nat, next0: nat, next1: nat, blockIdx: nat, rank: nat)
    requires sh.Valid() && Primed(sh, c, m, next0, next1, blockIdx, rank)
    ensures sh.kvBlock / sh.stage == 2 * m
  {
    hide Shape.Blocks, Entry;
    FirstRank(c, m, sh.stage);
  }

  /** At a block's last stage the pipeline moves on to the next block, and only there. */
  lemma PrimedNext(sh: Shape, c: nat, m: nat, next0: nat, next1: nat, blockIdx: nat, rank: nat)
    requires sh.Valid() && Primed(sh, c, m, next0, next1, blockIdx, rank)
    requires (c + 1) * sh.Chunk() < sh.context
    ensures rank == 2 * m ==> Primed(sh, c + 1, m, next1, Entry(sh, blockIdx), blockIdx + 1, 2)
    ensures rank != 2 * m ==> Primed(sh, c + 1, m, next0, next1, blockIdx, rank + 2)
  {
    NextChunk(c, m);
    ChunkInside(sh, c + 1, m);
    hide Shape.Blocks, Shape.Chunk;
  }

  lemma HalfChunk(c: nat, stage: nat)
    ensures c * (2 * stage) + 2 * stage == (c + 1) * (2 * stage)
  {
  }

  /** One turn of the loop: finish chunk c, and begin chunk c + 1. */
  method PipelineTurn(sh: Shape, at: nat, next0: nat, next1: nat, blockIdx: nat, rank: nat, tile: Tile,
                      out: array<seq<Cell>>, ghost c: nat, ghost m: nat)
      returns (next0': nat, next1': nat, blockIdx': nat, rank': nat, tile': Tile)
    requires sh.Valid() && out.Length == sh.maxLength && Primed(sh, c, m, next0, next1, blockIdx, rank)
    requires at == c * sh.Chunk() && at + sh.Chunk() < sh.context && Holds(sh, tile, at + sh.stage)
    modifies out
    ensures Primed(sh, c + 1, m, next0', next1', blockIdx', rank')
    ensures Holds(sh, tile', at + sh.Chunk() + sh.stage)
    ensures Written(sh, old(out[..]), out[..], at + sh.stage, at + sh.Chunk() + sh.stage)
  {
    hide Holds, Primed, Written, Shape.Naive;
    HalfChunk(c, sh.stage);
    PrimedNext(sh, c, m, next0, next1, blockIdx, rank);
    StagesPerBlock(sh, c, m, next0, next1, blockIdx, rank);
    next0', next1', blockIdx', rank' := next0, next1, blockIdx, rank;
    if rank == sh.kvBlock / sh.stage {
      rank', next0' := 0, next1;
      next1' := if blockIdx < sh.Blocks() then sh.indices[blockIdx] else 0;
      blockIdx' := blockIdx + 1;
    }
    rank' := rank' + 2;
    LoadHolds(sh, c + 1, m, next0', next1', blockIdx', rank');
    var loaded := Tile(next0', (at + sh.Chunk()) % sh.kvBlock);
    StoreStage(sh, tile, at + sh.stage, false, out);
    ghost var mid := out[..];
    tile' := Tile(next0', (at + sh.Chunk() + sh.stage) % sh.kvBlock);
    StoreStage(sh, loaded, at + sh.Chunk(), true, out);
    WrittenOn(sh, old(out[..]), mid, out[..], at + sh.stage, at + sh.Chunk(), at + sh.Chunk() + sh.stage);
  }

  lemma LoadHolds(sh: Shape, c: nat, m: nat, next0: nat, next1: nat, blockIdx: nat, rank: nat)
    requires sh.Valid() && Primed(sh, c, m, next0, next1, blockIdx, rank)
    ensures var at := c * sh.Chunk();
            && Holds(sh, Tile(next0, at % sh.kvBlock), at)
            && Holds(sh, Tile(next0, (at + sh.stage) % sh.kvBlock), at + sh.stage)
  {
    hide Holds;
    TileHolds(sh, c, m, 0, next0);
    TileHolds(sh, c, m, 1, next0);
  }

  /** How far a split of `length` positions from `start` writes: to the end of its last chunk. */
  function SplitEnd(start: nat, length: nat, chunk: nat): nat
    requires chunk > 0
  {
    start + (length + chunk - 1) / chunk * chunk
  }

  lemma LastChunk(first: nat, c: nat, length: nat, chunk: nat)
    requires chunk > 0 && first <= c
    requires c * chunk < first * chunk + length <= (c + 1) * chunk
    ensures (c + 1) * chunk == SplitEnd(first * chunk, length, chunk)
  {
    var n := c + 1 - first;
    assert n * chunk == (c + 1) * chunk - first * chunk;
    DivUnique(length + chunk - 1, chunk, n, length + chunk - 1 - n * chunk);
  }

  lemma FirstBlock(sh: Shape, at: nat, c: nat, m: nat)
    requires sh.Valid() && m > 0 && sh.kvBlock == m * sh.Chunk() && at == c * sh.Chunk() && at < sh.context
    ensures at / sh.kvBlock == c / m < sh.Blocks() && sh.kvBlock / sh.stage == 2 * m
    ensures at / sh.stage % (2 * m) == 2 * (c % m)
  {
    ChunkRows(c, m, sh.Chunk(), 0);
    ChunkInside(sh, c, m);
    FirstRank(c, m, sh.stage);
    hide Shape.Blocks;
  }

  lemma PrimedFirst(sh: Shape, c: nat, m: nat, block: nat)
    requires sh.Valid() && m > 0 && sh.kvBlock == m * sh.Chunk() && c * sh.Chunk() < sh.context
    requires block == c / m && block < sh.Blocks()
    ensures Primed(sh, c, m, sh.indices[block], Entry(sh, block + 1), block + 2, 2 * (c % m) + 2)
  {
    hide Shape.Chunk;
  }

  /** Before the loop: load the first chunk's two halves and write the first. */
  method StartPipeline(sh: Shape, at: nat, out: array<seq<Cell>>, ghost c: nat, ghost m: nat)
      returns (next0: nat, next1: nat, blockIdx: nat, rank: nat, tile: Tile)
    requires sh.Valid() && out.Length == sh.maxLength && m > 0 && sh.kvBlock == m * sh.Chunk()
    requires at == c * sh.Chunk() && at < sh.context
    modifies out
    ensures Primed(sh, c, m, next0, next1, blockIdx, rank) && Holds(sh, tile, at + sh.stage)
    ensures Written(sh, old(out[..]), out[..], at, at + sh.stage)
  {
    hide Holds, Written, Shape.Naive, Primed;
    FirstBlock(sh, at, c, m);
    PrimedFirst(sh, c, m, at / sh.kvBlock);
    rank := at / sh.stage % (sh.kvBlock / sh.stage);
    blockIdx := at / sh.kvBlock;
    next0 := sh.indices[blockIdx];
    blockIdx := blockIdx + 1;
    next1 := if blockIdx < sh.Blocks() then sh.indices[blockIdx] else 0;
    blockIdx := blockIdx + 1;
    var loaded := Tile(next0, at % sh.kvBlock);
    tile := Tile(next0, (at + sh.stage) % sh.kvBlock);
    rank := rank + 2;
    LoadHolds(sh, c, m, next0, next1, blockIdx, rank);
    StoreStage(sh, loaded, at, true, out);
  }

  /** The pipelined loop over one split: every position of its chunks gets its cell, once. */
  method PipelinedSplit(sh: Shape, start: nat, length: nat, out: array<seq<Cell>>, ghost first: nat, ghost m: nat)
    requires sh.Valid() && out.Length == sh.maxLength && m > 0 && sh.kvBlock == m * sh.Chunk()
    requires start == first * sh.Chunk() && 0 < length && start + length <= sh.context
    modifies out
    ensures Written(sh, old(out[..]), out[..], start, SplitEnd(start, length, sh.Chunk()))
  {
    hide Holds, Written, Shape.Naive, Primed;
    var at := start;
    var next0, next1, blockIdx, rank, tile := StartPipeline(sh, at, out, first, m);
    ghost var c := first;
    while at < start + length - sh.Chunk()
      invariant first <= c && at == c * sh.Chunk() && start <= at < start + length
      invariant Primed(sh, c, m, next0, next1, blockIdx, rank)
      invariant Holds(sh, tile, at + sh.stage)
      invariant Written(sh, old(out[..]), out[..], start, at + sh.stage)
      decreases start + length - at
    {
      ghost var before := out[..];
      HalfChunk(c, sh.stage);
      next0, next1, blockIdx, rank, tile := PipelineTurn(sh, at, next0, next1, blockIdx, rank, tile, out, c, m);
      WrittenOn(sh, old(out[..]), before, out[..], start, at + sh.stage, at + sh.Chunk() + sh.stage);
      at, c := at + sh.Chunk(), c + 1;
    }
    FinishSplit(sh, start, at, length, tile, out, old(out[..]), first, c);
  }

  /** After the loop: write the last half-chunk. */
  method FinishSplit(sh: Shape, start: nat, at: nat, length: nat, tile: Tile, out: array<seq<Cell>>,
                     ghost before: seq<seq<Cell>>, ghost first: nat, ghost c: nat)
    requires sh.Valid() && out.Length == sh.maxLength && Holds(sh, tile, at + sh.stage)
    requires first <= c && start == first * sh.Chunk() && at == c * sh.Chunk()
    requires start <= at < start + length <= at + sh.Chunk()
    requires Written(sh, before, out[..], start, at + sh.stage)
    modifies out
    ensures Written(sh, before, out[..], start, SplitEnd(start, length, sh.Chunk()))
  {
    hide Holds, Written, Shape.Naive, SplitEnd;
    ghost var mid := out[..];
    StoreStage(sh, tile, at + sh.stage, true, out);
    WrittenOn(sh, before, mid, out[..], start, at + sh.stage, at + 2 * sh.stage);
    HalfChunk(c, sh.stage);
    LastChunk(first, c, length, sh.Chunk());
  }

  lemma FirstRank(c: nat, m: nat, stage: nat)
    requires m > 0 && stage > 0
    ensures (m * (2 * stage)) / stage == 2 * m && c * (2 * stage) / stage % (2 * m) == 2 * (c % m)
  {
    assert m * (2 * stage) == 2 * m * stage && c * (2 * stage) == 2 * c * stage;
    DivUnique(m * (2 * stage), stage, 2 * m, 0);
    DivUnique(c * (2 * stage), stage, 2 * c, 0);
    assert c == c / m * m + c % m;
    assert 2 * c == c / m * (2 * m) + 2 * (c % m);
    DivUnique(2 * c, 2 * m, c / m, 2 * (c % m));
  }

  /** The chunk a split starts with, when n chunks are dealt to `splits` programs. */
  function FirstChunk(pid: nat, splits: nat, n: nat): nat
    requires splits > 0
  {
    pid * (n / splits) + if pid < n % splits then pid else n % splits
  }

  lemma FirstChunkStep(pid: nat, splits: nat, n: nat)
    requires splits > 0
    ensures FirstChunk(pid + 1, splits, n) ==
        FirstChunk(pid, splits, n) + n / splits + if pid < n % splits then 1 else 0
    ensures FirstChunk(0, splits, n) == 0 && FirstChunk(splits, splits, n) == n
  {
    assert (pid + 1) * (n / splits) == pid * (n / splits) + n / splits;
    assert n == splits * (n / splits) + n % splits;
  }

  lemma {:induction false} FirstChunkMonotone(a: nat, b: nat, splits: nat, n: nat)
    requires splits > 0 && a <= b
    ensures FirstChunk(a, splits, n) <= FirstChunk(b, splits, n)
    decreases b - a
  {
    if a < b {
      FirstChunkStep(a, splits, n);
      FirstChunkMonotone(a + 1, b, splits, n);
    }
  }

  /** The splits partition the chunks: every chunk is in one split's range, and in no other's. */
  lemma {:induction false} OwnerOf(c: nat, splits: nat, n: nat, below: nat) returns (pid: nat)
    requires splits > 0 && c < FirstChunk(below, splits, n)
    ensures pid < below && FirstChunk(pid, splits, n) <= c < FirstChunk(pid + 1, splits, n)
    ensures forall other: nat :: other != pid ==> !InSplit(c, other, splits, n)
    decreases below
  {
    FirstChunkStep(0, splits, n);
    if FirstChunk(below - 1, splits, n) <= c {
      pid := below - 1;
    } else {
      pid := OwnerOf(c, splits, n, below - 1);
    }
    forall other: nat | other != pid ensures !InSplit(c, other, splits, n) {
      if other < pid {
        FirstChunkMonotone(other + 1, pid, splits, n);
      } else {
        FirstChunkMonotone(pid + 1, other, splits, n);
      }
    }
  }

  predicate InSplit(c: nat, pid: nat, splits: nat, n: nat)
    requires splits > 0
  {
    FirstChunk(pid, splits, n) <= c < FirstChunk(pid + 1, splits, n)
  }

  lemma ChunksCover(context: nat, chunk: nat, c: nat)
    requires chunk > 0
    ensures var n := (context + chunk - 1) / chunk;
            (c < n ==> c * chunk < context) && (c <= n ==> c * chunk < context + chunk) && n * chunk >= context
  {
    var n := (context + chunk - 1) / chunk;
    assert n * chunk <= context + chunk - 1 < n * chunk + chunk;
    if c < n {
      MulLe(c + 1, n, chunk);
      assert (c + 1) * chunk == c * chunk + chunk;
    } else if c == n {
    }
  }

  /** A split's length never falls short of its chunks by a whole one. */
  lemma SplitLength(context: nat, chunk: nat, first: nat, count: nat)
    requires chunk > 0 && first + count <= (context + chunk - 1) / chunk
    ensures var start := first * chunk;
            var length := if context - start < count * chunk then context - start else count * chunk;
            && (count == 0 ==> length <= 0)
            && (count > 0 ==> length > 0 && start + length <= context
                              && SplitEnd(start, length, chunk) == (first + count) * chunk)
  {
    var start := first * chunk;
    var length := if context - start < count * chunk then context - start else count * chunk;
    if count > 0 {
      ChunksCover(context, chunk, first);
      ChunksCover(context, chunk, first + count);
      assert (first + count) * chunk == start + count * chunk;
      MulLe(1, count, chunk);
      DivUnique(length + chunk - 1, chunk, count, length + chunk - 1 - count * chunk);
    }
  }

  function ChunksOf(context: nat, chunk: nat): nat
    requires chunk > 0
  {
    (context + chunk - 1) / chunk
  }

  lemma SplitFacts(context: nat, chunk: nat, splits: nat, pid: nat)
    requires chunk > 0 && pid < splits
    ensures var n := ChunksOf(context, chunk);
            var start, limit := SplitStart(n, chunk, splits, pid), SplitLimit(n, chunk, splits, pid);
            var length := if context - start < limit then context - start else limit;
            && start == FirstChunk(pid, splits, n) * chunk
            && (length <= 0 ==> FirstChunk(pid + 1, splits, n) == FirstChunk(pid, splits, n))
            && (length > 0 ==> start + length <= context
                               && SplitEnd(start, length, chunk) == FirstChunk(pid + 1, splits, n) * chunk)
  {
    hide FirstChunk, SplitEnd, ChunksOf, SplitStart, SplitLimit;
    var n := ChunksOf(context, chunk);
    var count := n / splits + if pid < n % splits then 1 else 0;
    StartAndLimit(n, chunk, splits, pid);
    FirstChunkStep(pid, splits, n);
    FirstChunkStep(0, splits, n);
    FirstChunkMonotone(pid + 1, splits, splits, n);
    LengthFacts(context, chunk, FirstChunk(pid, splits, n), count, n);
  }

  lemma LengthFacts(context: nat, chunk: nat, first: nat, count: nat, n: nat)
    requires chunk > 0 && n == ChunksOf(context, chunk) && first + count <= n
    ensures var length := if context - first * chunk < count * chunk then context - first * chunk else count * chunk;
            && (length <= 0 ==> count == 0)
            && (length > 0 ==> first * chunk + length <= context
                               && SplitEnd(first * chunk, length, chunk) == (first + count) * chunk)
  {
    hide SplitEnd;
    SplitLength(context, chunk, first, count);
  }

  lemma StartAndLimit(n: nat, chunk: nat, splits: nat, pid: nat)
    requires splits > 0
    ensures SplitStart(n, chunk, splits, pid) == FirstChunk(pid, splits, n) * chunk
    ensures SplitLimit(n, chunk, splits, pid) == (n / splits + if pid < n % splits then 1 else 0) * chunk
  {
    var perSplit, residual := n / splits, n % splits;
    SplitArithmetic(pid, perSplit, if pid < residual then pid else residual,
                    perSplit + if pid < residual then 1 else 0, chunk);
  }

  function SplitStart(n: nat, chunk: nat, splits: nat, pid: nat): nat
    requires splits > 0
  {
    pid * (n / splits) * chunk + (if pid < n % splits then pid else n % splits) * chunk
  }

  function SplitLimit(n: nat, chunk: nat, splits: nat, pid: nat): nat
    requires splits > 0
  {
    n / splits * chunk + if pid < n % splits then chunk else 0
  }

  lemma SplitArithmetic(pid: nat, perSplit: nat, extra: nat, count: nat, chunk: nat)
    ensures pid * perSplit * chunk + extra * chunk == (pid * perSplit + extra) * chunk
    ensures count == perSplit ==> count * chunk == perSplit * chunk
    ensures count == perSplit + 1 ==> count * chunk == perSplit * chunk + chunk
  {
  }

  /** One program of the kernel: work out its split, and run it unless it is empty. */
  method SplitProgram(sh: Shape, splits: nat, pid: nat, out: array<seq<Cell>>, ghost m: nat)
    requires sh.Valid() && out.Length == sh.maxLength && m > 0 && sh.kvBlock == m * sh.Chunk() && pid < splits
    modifies out
    ensures var n := ChunksOf(sh.context, sh.Chunk());
            Written(sh, old(out[..]), out[..], FirstChunk(pid, splits, n) * sh.Chunk(),
                    FirstChunk(pid + 1, splits, n) * sh.Chunk())
  {
    hide Written, Shape.Naive, SplitEnd, FirstChunk;
    var chunk := sh.Chunk();
    var n := (sh.context + chunk - 1) / chunk;
    var start, limit := SplitStart(n, chunk, splits, pid), SplitLimit(n, chunk, splits, pid);
    var length := if sh.context - start < limit then sh.context - start else limit;
    SplitFacts(sh.context, chunk, splits, pid);
    hide SplitStart, SplitLimit;
    if length > 0 {
      PipelinedSplit(sh, start, length, out, FirstChunk(pid, splits, n), m);
    } else {
      WrittenNothing(sh, out[..], start);
    }
  }

  lemma WrittenNothing(sh: Shape, out: seq<seq<Cell>>, at: nat)
    requires sh.Valid() && |out| == sh.maxLength
    ensures Written(sh, out, out, at, at)
  {
  }

  /** A chunk has been written by the programs in `done`. */
  ghost predicate Reached(splits: nat, n: nat, done: set<nat>, c: nat)
    requires splits > 0
  {
    exists pid :: pid in done && InSplit(c, pid, splits, n)
  }

  ghost predicate WrittenBy(sh: Shape, chunk: nat, splits: nat, n: nat, done: set<nat>,
                            before: seq<seq<Cell>>, now: seq<seq<Cell>>)
    requires sh.Valid() && splits > 0 && chunk > 0
  {
    && |now| == |before| == sh.maxLength
    && forall p :: 0 <= p < |now| ==>
         now[p] == if Reached(splits, n, done, p / chunk) then before[p] + [sh.Naive(p)] else before[p]
  }

  lemma ChunkOfPosition(p: nat, chunk: nat, lo: nat, hi: nat)
    requires chunk > 0
    ensures lo * chunk <= p < hi * chunk <==> lo <= p / chunk < hi
  {
    assert p == p / chunk * chunk + p % chunk;
    if lo <= p / chunk {
      MulLe(lo, p / chunk, chunk);
    } else {
      MulStep(p / chunk, lo, chunk);
    }
    if hi <= p / chunk {
      MulLe(hi, p / chunk, chunk);
    } else {
      MulStep(p / chunk, hi, chunk);
    }
  }

  lemma ReachedMore(splits: nat, n: nat, done: set<nat>, pid: nat, c: nat)
    requires splits > 0 && pid !in done
    ensures Reached(splits, n, done + {pid}, c) <==> Reached(splits, n, done, c) || InSplit(c, pid, splits, n)
    ensures InSplit(c, pid, splits, n) ==> !Reached(splits, n, done, c)
  {
    hide FirstChunk;
    if InSplit(c, pid, splits, n) {
      assert pid in done + {pid};
      SplitsApart(c, pid, splits, n);
    }
    if Reached(splits, n, done, c) {
      var other :| other in done && InSplit(c, other, splits, n);
      assert other in done + {pid};
    }
  }

  /** A program that has not run before adds its split's positions, which nobody has written. */
  lemma ProgramAdds(sh: Shape, chunk: nat, splits: nat, n: nat, done: set<nat>, pid: nat,
                    before: seq<seq<Cell>>, mid: seq<seq<Cell>>, now: seq<seq<Cell>>)
    requires sh.Valid() && splits > 0 && chunk > 0 && pid !in done
    requires WrittenBy(sh, chunk, splits, n, done, before, mid)
    requires Written(sh, mid, now, FirstChunk(pid, splits, n) * chunk, FirstChunk(pid + 1, splits, n) * chunk)
    ensures WrittenBy(sh, chunk, splits, n, done + {pid}, before, now)
  {
    hide Shape.Naive, FirstChunk, Reached, Shape.Blocks, Shape.Chunk;
    forall p: nat | p < |now|
      ensures now[p] == if Reached(splits, n, done + {pid}, p / chunk) then before[p] + [sh.Naive(p)] else before[p]
    {
      ChunkOfPosition(p, chunk, FirstChunk(pid, splits, n), FirstChunk(pid + 1, splits, n));
      ReachedMore(splits, n, done, pid, p / chunk);
    }
  }

  lemma SplitsApart(c: nat, pid: nat, splits: nat, n: nat)
    requires splits > 0 && InSplit(c, pid, splits, n)
    ensures forall other: nat :: other != pid ==> !InSplit(c, other, splits, n)
  {
    forall other: nat | other != pid ensures !InSplit(c, other, splits, n) {
      if other < pid {
        FirstChunkMonotone(other + 1, pid, splits, n);
      } else {
        FirstChunkMonotone(pid + 1, other, splits, n);
      }
    }
  }

  /** The output row when all is done: each position of the context has received its cell, once, and a
      position past it nothing but minus infinity. */
  ghost predicate Complete(sh: Shape, out: seq<seq<Cell>>)
    requires sh.Valid()
  {
    && (forall p: nat :: p < sh.context && p < |out| ==> out[p] == [sh.Naive(p)])
    && (forall p: nat :: sh.context <= p < |out| ==> out[p] == [] || out[p] == [MinusInfinity])
  }

  /** All programs of a row, in any order: every position of the context receives, exactly once, the
      logit of the cache row its page table entry names. */
  method PagedMqaLogits(sh: Shape, splits: nat, order: seq<nat>, out: array<seq<Cell>>, ghost m: nat)
    requires sh.Valid() && out.Length == sh.maxLength && m > 0 && sh.kvBlock == m * sh.Chunk() && splits > 0
    requires forall i, j :: 0 <= i < j < |order| ==> order[i] != order[j]
    requires forall pid: nat :: pid in order <==> pid < splits
    requires forall p :: 0 <= p < out.Length ==> out[p] == []
    modifies out
    ensures Complete(sh, out[..])
  {
    hide Written, WrittenBy, Shape.Naive, FirstChunk, Shape.Blocks, Complete, ChunksOf;
    ghost var done: set<nat>, before := {}, out[..];
    ghost var chunk := sh.Chunk();
    ghost var n := ChunksOf(sh.context, chunk);
    NobodyWrote(sh, chunk, splits, n, before);
    for i := 0 to |order|
      invariant done == set j | 0 <= j < i :: order[j]
      invariant WrittenBy(sh, chunk, splits, n, done, before, out[..])
    {
      ghost var mid := out[..];
      assert order[i] in order;
      SplitProgram(sh, splits, order[i], out, m);
      ProgramAdds(sh, chunk, splits, n, done, order[i], before, mid, out[..]);
      done := done + {order[i]};
    }
    forall pid: nat | pid < splits ensures pid in done {
      assert pid in order;
    }
    AllWritten(sh, chunk, splits, done, before, out[..]);
  }

  lemma NobodyWrote(sh: Shape, chunk: nat, splits: nat, n: nat, out: seq<seq<Cell>>)
    requires sh.Valid() && splits > 0 && chunk > 0 && |out| == sh.maxLength
    ensures WrittenBy(sh, chunk, splits, n, {}, out, out)
  {
  }

  lemma AllReached(context: nat, chunk: nat, splits: nat, done: set<nat>, p: nat)
    requires chunk > 0 && splits > 0 && p < context && forall pid: nat :: pid < splits ==> pid in done
    ensures Reached(splits, ChunksOf(context, chunk), done, p / chunk)
  {
    var n := ChunksOf(context, chunk);
    ChunksCover(context, chunk, n);
    ChunkOfPosition(p, chunk, 0, n);
    FirstChunkStep(0, splits, n);
    hide FirstChunk;
    var pid := OwnerOf(p / chunk, splits, n, splits);
    assert InSplit(p / chunk, pid, splits, n);
  }

  lemma AllWritten(sh: Shape, chunk: nat, splits: nat, done: set<nat>, before: seq<seq<Cell>>, now: seq<seq<Cell>>)
    requires sh.Valid() && splits > 0 && chunk > 0
    requires WrittenBy(sh, chunk, splits, ChunksOf(sh.context, chunk), done, before, now)
    requires forall pid: nat :: pid < splits ==> pid in done
    requires forall p :: 0 <= p < |before| ==> before[p] == []
    ensures Complete(sh, now)
  {
    hide FirstChunk, Shape.Blocks, Shape.Chunk, ChunksOf, Reached, Shape.Naive;
    forall p: nat | p < sh.context && p < |now| ensures now[p] == [sh.Naive(p)] {
      AllReached(sh.context, chunk, splits, done, p);
    }
    forall p: nat | sh.context <= p < |now| ensures sh.Naive(p) == MinusInfinity {
      NaiveBeyond(sh, p);
    }
  }
}
