/** One request scanned launch after launch, each launch interleaved in any way
    with the rest of its batch. */
module ScanRequest {
  import opened SelectiveScan
  import opened ScanKernel
  import opened ScanRefinement
  import opened ScanMetadata
  import opened ScanLaunch
  import opened ScanPrefixCache
  import opened ScanGrid
  import opened ScanLayout
  import opened ScanLaunchExact

  /** A launch as one request sees it: its program is number `i`, and it resumes
      from chunk `from` of its row in the launch before. Memory may change freely
      in between, as long as that block keeps its content. */
  datatype Pass = Pass(l: Launch, rows: seq<Row>, pairs: seq<(nat, nat)>, m: Mem, schedule: seq<nat>, n: Sizes,
                       i: nat, from: nat)

  ghost predicate PassOk(s: Pass) {
    && Prepared(s.l, s.rows, s.pairs, s.m, s.n) && Finishes(s.l, s.rows, s.pairs, s.m, s.schedule, s.n)
    && s.i < |s.pairs| && Prefill(s.l, s.rows, s.pairs[s.i].0) && DistinctSlots(s.l.cache, s.pairs[s.i].0)
  }

  ghost function Mine(s: Pass): (p: Prog)
    requires PassOk(s)
    ensures FitsMem(p, s.m) && p.store.Blocked? && ChunkCount(p) == RowChunks(s.l.cache, s.pairs[s.i].0)
  {
    Programs(s.l, s.pairs)[s.i]
  }

  /** How many tokens of the request were computed before the pass. */
  ghost function Computed(s: Pass): nat
    requires PassOk(s)
  {
    s.rows[s.pairs[s.i].0].computed
  }

  ghost function Leaves(s: Pass): (m: Mem)
    requires PassOk(s)
    ensures |m.ssm| == |s.m.ssm| && |m.delta| == |s.m.delta|
  {
    ScanLaunchExact.Final(s.l, s.rows, s.pairs, s.m, s.schedule, s.n)
  }

  /** `next` loads what `prev`, interleaved as it was, left in the block of its chunk
      `next.from`, and continues the request there. */
  ghost predicate Follows(prev: Pass, next: Pass)
    requires PassOk(prev) && PassOk(next)
  {
    && Mine(next).math == Mine(prev).math && Mine(next).ch == Mine(prev).ch && Mine(next).hasInit
    && next.from < ChunkCount(Mine(prev))
    && Computed(next) == Covered(prev.l, prev.rows, prev.pairs[prev.i].0, next.from)
    && LoadLanes(Mine(next), next.m.ssm, Mine(next).loadSlot)
    == LoadLanes(Mine(prev), Leaves(prev).ssm, SlotOf(Mine(prev), next.from))
  }

  ghost predicate Sequence(passes: seq<Pass>) {
    && |passes| > 0 && (forall j :: 0 <= j < |passes| ==> PassOk(passes[j]))
    && !Mine(passes[0]).hasInit && Computed(passes[0]) == 0
    && (forall j :: 1 <= j < |passes| ==> Follows(passes[j-1], passes[j]))
  }

  function Take(ts: seq<Token>, k: int): seq<Token> {
    if 0 <= k <= |ts| then ts[..k] else ts
  }

  /** The tokens of the request that precede pass j. */
  ghost function Before(passes: seq<Pass>, j: nat): seq<Token>
    requires Sequence(passes) && j < |passes|
  {
    if j == 0 then []
    else
      Take(Before(passes, j - 1) + Tokens(Mine(passes[j-1]), passes[j-1].m), Computed(passes[j]))
  }

  lemma PassCheckpoint(s: Pass, hist: seq<Token>, c: nat)
    requires PassOk(s) && c < ChunkCount(Mine(s))
    requires Continues(Mine(s), s.m, hist) && |hist| == Computed(s)
    ensures HoldsIn(Leaves(s), Mine(s), s.m, hist, SlotOf(Mine(s), c), Covered(s.l, s.rows, s.pairs[s.i].0, c))
  {
    hide Built, Run, Agree, Continues, Finishes, SlotsDisjoint, DistinctSlots, RowCuts, BlockOf, HoldsIn;
    LaunchCheckpointsExact(s.l, s.rows, s.pairs, s.m, s.schedule, s.n, s.i, hist, c);
    ChunkIsBlock(s.l, s.rows, s.pairs[s.i].0, s.pairs[s.i].1, c);
  }

  /** Every pass of a request starts from the recurrence's state after exactly the
      tokens it skips. */
  lemma {:induction false} PassContinues(passes: seq<Pass>, j: nat)
    requires Sequence(passes) && j < |passes|
    ensures Continues(Mine(passes[j]), passes[j].m, Before(passes, j))
    ensures |Before(passes, j)| == Computed(passes[j])
  {
    hide PassOk, Mine, Leaves, Follows, Continues;
    if j == 0 {
      FirstContinues(passes[0]);
    } else {
      PassContinues(passes, j - 1);
      NextContinues(passes[j-1], passes[j], Before(passes, j - 1));
    }
  }

  lemma FirstContinues(s: Pass)
    requires PassOk(s) && !Mine(s).hasInit
    ensures Continues(Mine(s), s.m, [])
  {
    hide PassOk, Mine, Valid;
    EmptyScan(Mine(s));
  }

  lemma NextContinues(prev: Pass, next: Pass, hist: seq<Token>)
    requires PassOk(prev) && PassOk(next) && Follows(prev, next)
    requires Continues(Mine(prev), prev.m, hist) && |hist| == Computed(prev)
    ensures |Take(hist + Tokens(Mine(prev), prev.m), Computed(next))| == Computed(next)
    ensures Continues(Mine(next), next.m, Take(hist + Tokens(Mine(prev), prev.m), Computed(next)))
  {
    hide PassOk, Mine, Leaves, SlotOf, Covered, Valid;
    PassCheckpoint(prev, hist, next.from);
  }

  /** A request scanned over any number of launches, each interleaved in any way and
      resumed from any block of the one before: every block and every output is
      that of one pass of the plain recurrence over the whole request. */
  lemma RequestIsExact(passes: seq<Pass>, j: nat, c: nat, pos: nat)
    requires Sequence(passes) && j < |passes| && c < ChunkCount(Mine(passes[j])) && pos < Length(Mine(passes[j]))
    ensures HoldsIn(Leaves(passes[j]), Mine(passes[j]), passes[j].m, Before(passes, j), SlotOf(Mine(passes[j]), c),
                    Covered(passes[j].l, passes[j].rows, passes[j].pairs[passes[j].i].0, c))
    ensures AllShaped(Mine(passes[j]).ch, Before(passes, j) + Tokens(Mine(passes[j]), passes[j].m))
    ensures Leaves(passes[j]).delta[Mine(passes[j]).deltaBase + pos]
         == OutputAt(Mine(passes[j]).math, Mine(passes[j]).ch, Zeros(Lanes(Mine(passes[j]))),
                     Before(passes, j) + Tokens(Mine(passes[j]), passes[j].m), |Before(passes, j)| + pos)
  {
    hide PassOk, Mine, Leaves, Follows, Continues, Before, HoldsIn, OutputAt, Tokens;
    PassContinues(passes, j);
    PassCheckpoint(passes[j], Before(passes, j), c);
    PassOutput(passes[j], Before(passes, j), pos);
  }

  lemma PassOutput(s: Pass, hist: seq<Token>, pos: nat)
    requires PassOk(s) && Continues(Mine(s), s.m, hist) && pos < Length(Mine(s))
    ensures AllShaped(Mine(s).ch, hist + Tokens(Mine(s), s.m))
    ensures Leaves(s).delta[Mine(s).deltaBase + pos]
         == OutputAt(Mine(s).math, Mine(s).ch, Zeros(Lanes(Mine(s))), hist + Tokens(Mine(s), s.m), |hist| + pos)
  {
    hide Prefill, Continues, OutputAt, Finishes, SlotsDisjoint, Valid, Tokens, DistinctSlots;
    LaunchOutputsExact(s.l, s.rows, s.pairs, s.m, s.schedule, s.n, s.i, hist, pos);
  }
}
