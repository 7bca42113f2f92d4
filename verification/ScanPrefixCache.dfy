/** The prefix cache is exact: what a chunked, checkpointed run stores under a
    block is the state of the plain recurrence at the end of that block, and a
    run resumed from it produces the outputs of one uncached pass. */
module ScanPrefixCache {
  import opened Arithmetic
  import opened SelectiveScan
  import opened ScanKernel
  import opened ScanRefinement
  import opened ScanMetadata
  import opened ScanLaunch

  /** The block indices the scheduler passes for a row with tokens to process. */
  ghost predicate Scheduled(k: Cache, row: Row, b: nat)
    requires k.Blocks? && k.blockSize > 0 && b < |k.first| && b < |k.last|
  {
    && row.tokens > 0 && row.checkpoint == 0
    && k.first[b] == row.computed / k.blockSize
    && k.last[b] == (row.computed + row.tokens - 1) / k.blockSize
  }

  /** Row b of a launch with a block table, with the builder's chunk metadata. */
  ghost predicate Prefill(l: Launch, rows: seq<Row>, b: nat) {
    && LaunchOk(l) && l.cache.Blocks? && b < l.batch == |rows|
    && Built(l.cache, rows) && Scheduled(l.cache, rows[b], b)
  }

  /** Chunk c of a row is stored through block-table entry first + c, and every
      chunk but the last ends where that block ends. */
  lemma ChunkIsBlock(l: Launch, rows: seq<Row>, b: nat, d: nat, c: nat)
    requires Prefill(l, rows, b) && d < l.dim && c < RowChunks(l.cache, b)
    ensures BlockOf(Resolve(l, b, d), c) == l.cache.first[b] + c
    ensures c < RowChunks(l.cache, b) - 1 ==>
      rows[b].computed + RowCuts(l, b)[c + 1] == (l.cache.first[b] + c + 1) * l.cache.blockSize
    ensures RowCuts(l, b)[RowChunks(l.cache, b)] == rows[b].tokens
  {
    hide BlocksOk, Sum, Segment;
    var row, size := rows[b], l.cache.blockSize;
    var own := RowLens(size, row);
    BuiltCuts(l, rows, b, |own|);
    assert own == Segment(size, row.computed, row.tokens) && own[..|own|] == own;
    SegmentSum(size, row.computed, row.tokens);
    SegmentCount(size, row.computed, row.tokens);
    if c < |own| - 1 {
      BuiltCuts(l, rows, b, c + 1);
      SegmentEnds(size, row.computed, row.tokens, c);
      StartPosition(l, rows, b);
      EndsInBlock(Resolve(l, b, d), c, row.computed);
    }
  }

  /** A chunk that ends where block first + c ends is stored under that block. */
  lemma EndsInBlock(p: Prog, c: nat, computed: int)
    requires p.store.Blocked? && p.store.blockSize > 0 && |p.cuts| >= 1 && c < ChunkCount(p) - 1
    requires p.store.first * p.store.blockSize + p.store.startOffset == computed
    requires computed + p.cuts[c + 1] == (p.store.first + c + 1) * p.store.blockSize
    ensures BlockOf(p, c) == p.store.first + c
  {
    var k, size := p.store.first + c, p.store.blockSize;
    assert (k + 1) * size == k * size + size;
    DivUnique(k * size + (size - 1), size, k, size - 1);
  }

  /** With more than one chunk, the offset the kernel derives from the first
      chunk's length puts its running position at the computed tokens. */
  lemma StartPosition(l: Launch, rows: seq<Row>, b: nat)
    requires Prefill(l, rows, b) && RowChunks(l.cache, b) > 1
    ensures l.cache.first[b] * l.cache.blockSize + RowStore(l, b).startOffset == rows[b].computed
  {
    hide BlocksOk, Segment;
    var row, size := rows[b], l.cache.blockSize;
    var own := RowLens(size, row);
    BuiltCuts(l, rows, b, 0);
    BuiltCuts(l, rows, b, 1);
    assert own == Segment(size, row.computed, row.tokens);
    assert own[..1][..0] == [] && own[..0] == [] && own[..1][0] == own[0];
    FirstChunk(size, row.computed, row.tokens);
  }

  /** The chunks of a row are its blocks from `first` to `last`. */
  lemma ChunksAreBlocks(l: Launch, rows: seq<Row>, b: nat)
    requires Prefill(l, rows, b)
    ensures RowChunks(l.cache, b) == l.cache.last[b] - l.cache.first[b] + 1 > 0 && l.cache.first[b] >= 0
  {
    hide BlocksOk, Segment, Sum;
    var row, size := rows[b], l.cache.blockSize;
    BuiltCuts(l, rows, b, 0);
    assert RowLens(size, row) == Segment(size, row.computed, row.tokens);
    SegmentCount(size, row.computed, row.tokens);
    SegmentSum(size, row.computed, row.tokens);
    NonEmpty(size, row.computed, row.tokens);
  }

  lemma NonEmpty(size: int, computed: nat, t: nat)
    requires size > 0 && t > 0
    ensures (computed + t - 1) / size >= computed / size >= 0
  {
    var q, r, q', r' := computed / size, computed % size, (computed + t - 1) / size, (computed + t - 1) % size;
    assert q * size + r <= q' * size + r';
    if q' < q { Scale(q', q, size); }
  }

  /** With a block table long enough for `last`, the builder's metadata makes a
      valid program: cuts ascend from 0 and every chunk end finds its entry. */
  lemma PrefillIsValid(l: Launch, rows: seq<Row>, b: nat, d: nat)
    requires Prefill(l, rows, b) && d < l.dim && l.cache.last[b] < |l.cache.table[b]|
    ensures Valid(Resolve(l, b, d))
  {
    hide Built, BlockOf, FirstChunkIdx;
    ChunksAreBlocks(l, rows, b);
    OnlyLast(l, b, d);
    var p := Resolve(l, b, d);
    forall c | 0 <= c < ChunkCount(p) ensures 0 <= BlockOf(p, c) < |p.store.row| {
      ChunkIsBlock(l, rows, b, d, c);
    }
  }

  /** Distinct blocks of the row have distinct slots. */
  ghost predicate DistinctSlots(k: Cache, b: nat)
    requires k.Blocks? && b < |k.table| && b < |k.first| && b < |k.last|
  {
    forall i, j :: k.first[b] <= i < j <= k.last[b] && 0 <= i && j < |k.table[b]| ==>
      k.table[b][i] != k.table[b][j]
  }

  lemma NoOverwrite(l: Launch, rows: seq<Row>, b: nat, d: nat, c: nat)
    requires Prefill(l, rows, b) && d < l.dim && c < RowChunks(l.cache, b)
    requires Valid(Resolve(l, b, d)) && DistinctSlots(l.cache, b)
    ensures LastWriter(Resolve(l, b, d), c, RowChunks(l.cache, b))
  {
    hide Built, RowCuts, BlockOf, FirstChunkIdx;
    var p, n := Resolve(l, b, d), RowChunks(l.cache, b);
    assert BlockOf(p, n - 1) == l.cache.last[b] by { OnlyLast(l, b, d); }
    ChunkIsBlock(l, rows, b, d, n - 1);
    ChunkIsBlock(l, rows, b, d, c);
    forall e | c < e < n ensures SlotOf(p, e) != SlotOf(p, c) {
      ChunkIsBlock(l, rows, b, d, e);
    }
  }

  lemma OnlyLast(l: Launch, b: nat, d: nat)
    requires LaunchOk(l) && l.cache.Blocks? && b < l.batch && d < l.dim && RowChunks(l.cache, b) > 0
    ensures BlockOf(Resolve(l, b, d), RowChunks(l.cache, b) - 1) == l.cache.last[b]
  {}

  /** The program starts from the state after `hist`, the tokens of the sequence
      that were computed earlier. */
  ghost predicate Continues(p: Prog, m: Mem, hist: seq<Token>)
    requires FitsMem(p, m)
  {
    AllShaped(p.ch, hist) && Initial(p, m) == Scan(p.math, p.ch, Zeros(Lanes(p)), hist)
  }

  /** How much of the sequence the slot of chunk c stands for. */
  function Covered(l: Launch, rows: seq<Row>, b: nat, c: nat): int
    requires LaunchOk(l) && l.cache.Blocks? && b < l.batch == |rows| && c < RowChunks(l.cache, b)
  {
    if c < RowChunks(l.cache, b) - 1 then (l.cache.first[b] + c + 1) * l.cache.blockSize
    else rows[b].computed + rows[b].tokens
  }

  /** After the run, the slot of block first + c holds the plain recurrence's
      state after exactly (first + c + 1) * blockSize tokens of the sequence, for
      every block the row completes before its last chunk; the slot of block
      `last` holds the state after all of them. */
  lemma CheckpointsAreExact(l: Launch, rows: seq<Row>, b: nat, d: nat, m: Mem, hist: seq<Token>, c: nat)
    requires Prefill(l, rows, b) && d < l.dim && c < RowChunks(l.cache, b) && DistinctSlots(l.cache, b)
    requires FitsMem(Resolve(l, b, d), m) && SlotsApart(Resolve(l, b, d))
    requires Continues(Resolve(l, b, d), m, hist) && |hist| == rows[b].computed
    ensures 0 <= l.cache.first[b] + c < |l.cache.table[b]|
    ensures Holds(Resolve(l, b, d), m, hist, l.cache.table[b][l.cache.first[b] + c], Covered(l, rows, b, c))
  {
    hide BlocksOk, Built, RowCuts, BlockOf, Run, LastWriter, Continues, SlotsApart;
    var p := Resolve(l, b, d);
    NoOverwrite(l, rows, b, d, c);
    ChunkIsBlock(l, rows, b, d, c);
    StoredState(p, m, hist, c);
  }

  /** After the run, `slot` holds the state after the first n tokens of the
      sequence made of `hist` and the program's own tokens. */
  ghost predicate Holds(p: Prog, m: Mem, hist: seq<Token>, slot: int, n: int)
    requires FitsMem(p, m)
  {
    var sequence := hist + Tokens(p, m);
    && 0 <= n <= |sequence| && AllShaped(p.ch, sequence) && SlotFits(p, slot, |m.ssm|)
    && LoadLanes(p, Run(p, m).ssm, slot) == Scan(p.math, p.ch, Zeros(Lanes(p)), sequence[..n])
  }

  lemma StoredState(p: Prog, m: Mem, hist: seq<Token>, c: nat)
    requires FitsMem(p, m) && Continues(p, m, hist) && SlotsApart(p)
    requires p.store.Blocked? && c < ChunkCount(p) && LastWriter(p, c, ChunkCount(p))
    ensures Holds(p, m, hist, SlotOf(p, c), |hist| + p.cuts[c + 1])
  {
    hide BlockOf, Run, StateAt;
    Checkpoint(p, m, c);
    Joined(p, m, hist, p.cuts[c + 1]);
  }

  /** The state after k positions of a continued run is that of the whole sequence. */
  lemma Joined(p: Prog, m: Mem, hist: seq<Token>, k: nat)
    requires FitsMem(p, m) && Continues(p, m, hist) && k <= Length(p)
    ensures AllShaped(p.ch, hist + Tokens(p, m))
    ensures StateAt(p, m, k) == Scan(p.math, p.ch, Zeros(Lanes(p)), (hist + Tokens(p, m))[..|hist| + k])
  {
    hide Scan;
    var ts := Tokens(p, m);
    ScanSplit(p.math, p.ch, Zeros(Lanes(p)), hist, ts[..k]);
    assert (hist + ts)[..|hist| + k] == hist + ts[..k];
  }

  /** Every output of a continued run is the output of one uncached pass over
      the whole sequence, at the same position. */
  lemma OutputsAreExact(p: Prog, m: Mem, hist: seq<Token>, pos: nat)
    requires FitsMem(p, m) && Continues(p, m, hist) && pos < Length(p)
    ensures AllShaped(p.ch, hist + Tokens(p, m))
    ensures Run(p, m).delta[p.deltaBase + pos]
         == OutputAt(p.math, p.ch, Zeros(Lanes(p)), hist + Tokens(p, m), |hist| + pos)
    ensures p.hasZ ==>
      Run(p, m).z[p.zBase + pos] == Gate(p.math, Run(p, m).delta[p.deltaBase + pos], (hist + Tokens(p, m))[|hist| + pos].z)
  {
    hide Run, OutputAt, Scan;
    RunRefinesRecurrence(p, m);
    assert Run(p, m).delta[p.deltaBase + pos] == OutAt(p, m, pos);
    assert p.hasZ ==> Run(p, m).z[p.zBase + pos] == Gate(p.math, OutAt(p, m, pos), m.z[p.zBase + pos]);
    OutputSplit(p.math, p.ch, Zeros(Lanes(p)), hist, Tokens(p, m), pos);
  }

  // ---- Runs resumed again and again ----------------------------------------

  /** One launch of a sequence: it starts from the state that chunk `from` of
      the launch before it stored. Memory may change freely in between, as long
      as that slot keeps its content. */
  datatype Stage = Stage(p: Prog, m: Mem, from: nat)

  function EndSlot(p: Prog, c: nat): int
    requires Valid(p) && c < ChunkCount(p)
  {
    if p.store.Blocked? then SlotOf(p, c) else p.loadSlot
  }

  ghost predicate StageOk(s: Stage) {
    FitsMem(s.p, s.m) && SlotsApart(s.p)
  }

  ghost predicate Resumes(prev: Stage, next: Stage)
    requires StageOk(prev) && StageOk(next)
  {
    && next.p.math == prev.p.math && next.p.ch == prev.p.ch && next.p.hasInit
    && next.from < ChunkCount(prev.p)
    && (prev.p.store.Blocked? ==> LastWriter(prev.p, next.from, ChunkCount(prev.p)))
    && LoadLanes(next.p, next.m.ssm, next.p.loadSlot)
    == LoadLanes(prev.p, Run(prev.p, prev.m).ssm, EndSlot(prev.p, next.from))
  }

  ghost predicate Chain(stages: seq<Stage>) {
    && |stages| > 0
    && (forall i :: 0 <= i < |stages| ==> StageOk(stages[i]))
    && !stages[0].p.hasInit
    && (forall i :: 1 <= i < |stages| ==> Resumes(stages[i-1], stages[i]))
  }

  /** The tokens of the sequence that precede stage i. */
  ghost function History(stages: seq<Stage>, i: nat): seq<Token>
    requires Chain(stages) && i < |stages|
  {
    if i == 0 then []
    else
      assert Resumes(stages[i-1], stages[i]);
      History(stages, i - 1) + Tokens(stages[i-1].p, stages[i-1].m)[..stages[i-1].p.cuts[stages[i].from + 1]]
  }

  lemma EndState(s: Stage, hist: seq<Token>, c: nat)
    requires StageOk(s) && Continues(s.p, s.m, hist) && c < ChunkCount(s.p)
    requires s.p.store.Blocked? ==> LastWriter(s.p, c, ChunkCount(s.p))
    ensures AllShaped(s.p.ch, hist + Tokens(s.p, s.m)[..s.p.cuts[c + 1]])
    ensures LoadLanes(s.p, Run(s.p, s.m).ssm, EndSlot(s.p, c))
         == Scan(s.p.math, s.p.ch, Zeros(Lanes(s.p)), hist + Tokens(s.p, s.m)[..s.p.cuts[c + 1]])
  {
    hide BlockOf, Run, StateAt, Scan;
    var k := s.p.cuts[c + 1];
    if s.p.store.Blocked? {
      Checkpoint(s.p, s.m, c);
    } else {
      FinalStateStored(s.p, s.m);
    }
    Joined(s.p, s.m, hist, k);
    assert (hist + Tokens(s.p, s.m))[..|hist| + k] == hist + Tokens(s.p, s.m)[..k];
  }

  /** Every stage of a chain starts from the plain recurrence's state. */
  lemma {:induction false} ChainContinues(stages: seq<Stage>, i: nat)
    requires Chain(stages) && i < |stages|
    ensures Continues(stages[i].p, stages[i].m, History(stages, i))
  {
    hide Run, Valid, Fits;
    if i > 0 {
      ChainContinues(stages, i - 1);
      assert Resumes(stages[i-1], stages[i]);
      EndState(stages[i-1], History(stages, i - 1), stages[i].from);
    }
  }

  /** Resuming from stored checkpoints, any number of times and from any chunk,
      gives the outputs of one uncached program that scans the whole sequence at
      once, and leaves the same final state in the slot it is stored through. */
  lemma ResumedEqualsUncached(stages: seq<Stage>, i: nat, q: Prog, mq: Mem, pos: nat)
    requires Chain(stages) && i < |stages| && StageOk(Stage(q, mq, 0))
    requires q.math == stages[i].p.math && q.ch == stages[i].p.ch && !q.hasInit
    requires Tokens(q, mq) == History(stages, i) + Tokens(stages[i].p, stages[i].m)
    requires pos < Length(stages[i].p)
    ensures Run(stages[i].p, stages[i].m).delta[stages[i].p.deltaBase + pos]
         == Run(q, mq).delta[q.deltaBase + |History(stages, i)| + pos]
    ensures stages[i].p.hasZ && q.hasZ ==>
      Run(stages[i].p, stages[i].m).z[stages[i].p.zBase + pos]
      == Run(q, mq).z[q.zBase + |History(stages, i)| + pos]
    ensures ChunkCount(stages[i].p) > 0 && ChunkCount(q) > 0 ==>
      LastLanes(stages[i].p, stages[i].m) == LastLanes(q, mq)
  {
    hide Run, Scan, Tokens, StateAt, Length, Continues, SlotFits, SlotsApart;
    ChainContinues(stages, i);
    ContinuedEqualsUncached(stages[i].p, stages[i].m, History(stages, i), q, mq, pos);
    if ChunkCount(stages[i].p) > 0 && ChunkCount(q) > 0 {
      LastLanesAre(stages[i].p, stages[i].m);
      LastLanesAre(q, mq);
    }
  }

  /** The lanes in the slot through which the last chunk is stored, after the run. */
  ghost function LastLanes(p: Prog, m: Mem): seq<real>
    requires StageOk(Stage(p, m, 0)) && ChunkCount(p) > 0
  {
    LoadLanes(p, Run(p, m).ssm, EndSlot(p, ChunkCount(p) - 1))
  }

  lemma LastLanesAre(p: Prog, m: Mem)
    requires StageOk(Stage(p, m, 0)) && ChunkCount(p) > 0
    ensures LastLanes(p, m) == StateAt(p, m, Length(p))
  {
    hide BlockOf, Run, StateAt;
    if p.store.Blocked? { Checkpoint(p, m, ChunkCount(p) - 1); } else { FinalStateStored(p, m); }
  }

  /** The same for one program that starts from the state after `hist`. */
  lemma ContinuedEqualsUncached(p: Prog, m: Mem, hist: seq<Token>, q: Prog, mq: Mem, pos: nat)
    requires FitsMem(p, m) && Continues(p, m, hist) && FitsMem(q, mq) && pos < Length(p)
    requires q.math == p.math && q.ch == p.ch && !q.hasInit && Tokens(q, mq) == hist + Tokens(p, m)
    ensures Run(p, m).delta[p.deltaBase + pos] == Run(q, mq).delta[q.deltaBase + |hist| + pos]
    ensures p.hasZ && q.hasZ ==> Run(p, m).z[p.zBase + pos] == Run(q, mq).z[q.zBase + |hist| + pos]
    ensures StateAt(p, m, Length(p)) == StateAt(q, mq, Length(q))
  {
    hide Run, OutputAt, Scan, Tokens, SlotFits, OutAt;
    OutputsAreExact(p, m, hist, pos);
    Joined(p, m, hist, Length(p));
    assert Continues(q, mq, []) by { EmptyScan(q); }
    assert [] + Tokens(q, mq) == Tokens(q, mq);
    OutputsAreExact(q, mq, [], |hist| + pos);
    Joined(q, mq, [], Length(q));
  }

  lemma EmptyScan(p: Prog)
    ensures Scan(p.math, p.ch, Zeros(Lanes(p)), []) == Zeros(Lanes(p))
  {}
}
