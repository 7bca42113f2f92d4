/** A whole launch, its programs interleaved in any way: the cache blocks and the
    outputs are those of the plain recurrence. */
module ScanLaunchExact {
  import opened Arithmetic
  import opened SelectiveScan
  import opened ScanKernel
  import opened ScanRefinement
  import opened ScanMetadata
  import opened ScanLaunch
  import opened ScanPrefixCache
  import opened ScanGrid
  import opened ScanLayout

  /** A launch with the builder's metadata, in which every row that is processed is
      scheduled and stores to slots of its own, and the programs fit their tensors.
      Nothing is asked of rows that hold the null block. */
  ghost predicate Prepared(l: Launch, rows: seq<Row>, pairs: seq<(nat, nat)>, m: Mem, n: Sizes) {
    && LayoutOk(l) && SlotsDisjoint(l) && ActivePairs(l, pairs) && Sized(m, n)
    && (forall i :: 0 <= i < |pairs| ==> FitsIn(Programs(l, pairs)[i], n))
    && l.batch == |rows|
    && (forall b :: 0 <= b < l.batch && !Skipped(l, b) ==> Prefill(l, rows, b) && SeqLen(l, b) == rows[b].tokens)
  }

  lemma PreparedIsIndependent(l: Launch, rows: seq<Row>, pairs: seq<(nat, nat)>, m: Mem, n: Sizes)
    requires Prepared(l, rows, pairs, m, n)
    ensures ChunksCover(l) && Independent(Programs(l, pairs), n)
  {
    hide Built, RowCuts, SlotsDisjoint, ActivePairs, BlocksOk, SeqLen, FitsIn;
    forall b | 0 <= b < l.batch && !Skipped(l, b) ensures RowCuts(l, b)[|RowCuts(l, b)| - 1] == SeqLen(l, b) {
      assert Prefill(l, rows, b);
      BuiltCovers(l, rows, b);
    }
    LaunchOrderIndependent(l, pairs, m, [], n);
  }

  /** The memory after a schedule. */
  ghost function Final(l: Launch, rows: seq<Row>, pairs: seq<(nat, nat)>, m: Mem, schedule: seq<nat>, n: Sizes): (r: Mem)
    requires Prepared(l, rows, pairs, m, n)
    ensures Sized(r, n)
  {
    PreparedIsIndependent(l, rows, pairs, m, n);
    After(l, pairs, m, schedule, n).mem
  }

  ghost predicate Finishes(l: Launch, rows: seq<Row>, pairs: seq<(nat, nat)>, m: Mem, schedule: seq<nat>, n: Sizes)
    requires Prepared(l, rows, pairs, m, n)
  {
    PreparedIsIndependent(l, rows, pairs, m, n);
    Complete(Programs(l, pairs), After(l, pairs, m, schedule, n).pcs, n)
  }

  lemma ProgramAsAlone(l: Launch, rows: seq<Row>, pairs: seq<(nat, nat)>, m: Mem, schedule: seq<nat>, n: Sizes, i: nat)
    requires Prepared(l, rows, pairs, m, n) && Finishes(l, rows, pairs, m, schedule, n) && i < |pairs|
    ensures Agree(Programs(l, pairs)[i], Final(l, rows, pairs, m, schedule, n), Run(Programs(l, pairs)[i], m), n)
  {
    hide Agree, Run, Independent, SlotsDisjoint, Interleave, Complete, Prefill, FitsIn;
    PreparedIsIndependent(l, rows, pairs, m, n);
    EachAsAlone(Programs(l, pairs), m, schedule, n, i);
  }

  lemma SlotAgrees(p: Prog, a: Mem, b: Mem, n: Sizes, slot: int)
    requires FitsIn(p, n) && Sized(a, n) && Sized(b, n) && Agree(p, a, b, n) && StoresTo(p, slot) && SlotFits(p, slot, n.ssm)
    ensures LoadLanes(p, a.ssm, slot) == LoadLanes(p, b.ssm, slot)
  {
    hide Valid, SsmAddr;
    forall x | 0 <= x < Lanes(p) ensures a.ssm[SsmAddr(p, slot, x)] == b.ssm[SsmAddr(p, slot, x)] {
      assert InSlot(p, slot, SsmAddr(p, slot, x));
      assert StateWritten(p, SsmAddr(p, slot, x));
    }
  }

  lemma LayoutKeepsSlotsApart(l: Launch, b: nat, d: nat)
    requires LayoutOk(l) && b < l.batch && d < l.dim
    ensures SlotsApart(Resolve(l, b, d))
  {
    NonNegative(l.dstate, l.ssmLane);
    NonNegative(l.dim - 1, l.ssmDim);
    assert l.dim * l.ssmDim == (l.dim - 1) * l.ssmDim + l.ssmDim;
  }

  /** Whatever the schedule, entry `first + c` of a row's block table ends with the
      recurrence's state after exactly the tokens that block stands for, on every
      channel. */
  lemma LaunchCheckpointsExact(l: Launch, rows: seq<Row>, pairs: seq<(nat, nat)>, m: Mem, schedule: seq<nat>, n: Sizes,
                               i: nat, hist: seq<Token>, c: nat)
    requires Prepared(l, rows, pairs, m, n) && Finishes(l, rows, pairs, m, schedule, n) && i < |pairs|
    requires c < RowChunks(l.cache, pairs[i].0) && DistinctSlots(l.cache, pairs[i].0)
    requires Continues(Programs(l, pairs)[i], m, hist) && |hist| == rows[pairs[i].0].computed
    ensures 0 <= l.cache.first[pairs[i].0] + c < |l.cache.table[pairs[i].0]|
    ensures HoldsIn(Final(l, rows, pairs, m, schedule, n), Programs(l, pairs)[i], m, hist,
                    l.cache.table[pairs[i].0][l.cache.first[pairs[i].0] + c], Covered(l, rows, pairs[i].0, c))
  {
    hide Built, Run, Agree, Continues, Finishes, Final, SlotsDisjoint, DistinctSlots;
    assert Prefill(l, rows, pairs[i].0);
    ProgramAsAlone(l, rows, pairs, m, schedule, n, i);
    RowCheckpoint(l, rows, pairs[i].0, pairs[i].1, m, hist, c, Final(l, rows, pairs, m, schedule, n), n);
  }

  /** The same for one row and channel, in any memory that agrees with the run alone. */
  lemma RowCheckpoint(l: Launch, rows: seq<Row>, b: nat, d: nat, m: Mem, hist: seq<Token>, c: nat, final: Mem, n: Sizes)
    requires LayoutOk(l) && Prefill(l, rows, b) && d < l.dim && c < RowChunks(l.cache, b) && DistinctSlots(l.cache, b)
    requires Sized(m, n) && Sized(final, n) && FitsIn(Resolve(l, b, d), n) && Agree(Resolve(l, b, d), final, Run(Resolve(l, b, d), m), n)
    requires Continues(Resolve(l, b, d), m, hist) && |hist| == rows[b].computed
    ensures 0 <= l.cache.first[b] + c < |l.cache.table[b]|
    ensures HoldsIn(final, Resolve(l, b, d), m, hist, l.cache.table[b][l.cache.first[b] + c], Covered(l, rows, b, c))
  {
    hide Built, Run, Agree, Continues, RowCuts, BlockOf, SlotFits, SlotsApart, DistinctSlots, ViewOk;
    var p := Resolve(l, b, d);
    LayoutKeepsSlotsApart(l, b, d);
    CheckpointsAreExact(l, rows, b, d, m, hist, c);
    ChunkIsBlock(l, rows, b, d, c);
    assert SlotOf(p, c) == l.cache.table[b][l.cache.first[b] + c];
    SlotAgrees(p, final, Run(p, m), n, SlotOf(p, c));
  }

  /** `slot` of `final` holds the state after the first k tokens of the sequence
      made of `hist` and the program's own tokens. */
  ghost predicate HoldsIn(final: Mem, p: Prog, m: Mem, hist: seq<Token>, slot: int, k: int)
    requires FitsMem(p, m)
  {
    var sequence := hist + Tokens(p, m);
    && 0 <= k <= |sequence| && AllShaped(p.ch, sequence) && SlotFits(p, slot, |final.ssm|)
    && LoadLanes(p, final.ssm, slot) == Scan(p.math, p.ch, Zeros(Lanes(p)), sequence[..k])
  }

  /** Whatever the schedule, every output is that of one uncached pass over the
      whole sequence. */
  lemma LaunchOutputsExact(l: Launch, rows: seq<Row>, pairs: seq<(nat, nat)>, m: Mem, schedule: seq<nat>, n: Sizes,
                           i: nat, hist: seq<Token>, pos: nat)
    requires Prepared(l, rows, pairs, m, n) && Finishes(l, rows, pairs, m, schedule, n) && i < |pairs|
    requires Continues(Programs(l, pairs)[i], m, hist) && pos < Length(Programs(l, pairs)[i])
    ensures AllShaped(Programs(l, pairs)[i].ch, hist + Tokens(Programs(l, pairs)[i], m))
    ensures Final(l, rows, pairs, m, schedule, n).delta[Programs(l, pairs)[i].deltaBase + pos]
         == OutputAt(l.math, Programs(l, pairs)[i].ch, Zeros(l.dstate), hist + Tokens(Programs(l, pairs)[i], m), |hist| + pos)
    ensures l.hasZ ==>
      Final(l, rows, pairs, m, schedule, n).z[Programs(l, pairs)[i].zBase + pos]
         == Gate(l.math, Final(l, rows, pairs, m, schedule, n).delta[Programs(l, pairs)[i].deltaBase + pos],
                 (hist + Tokens(Programs(l, pairs)[i], m))[|hist| + pos].z)
  {
    hide Prefill, Run, Continues, Finishes, Final, SlotsDisjoint, OutputAt, Valid, StateCell;
    var p := Programs(l, pairs)[i];
    OutputsAreExact(p, m, hist, pos);
    ProgramAsAlone(l, rows, pairs, m, schedule, n, i);
    assert DeltaCell(p, p.deltaBase + pos);
    assert p.hasZ ==> GateCell(p, p.zBase + pos);
  }
}
