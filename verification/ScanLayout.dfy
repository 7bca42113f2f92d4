/** The programs of a launch do not touch each other's cells: packed sequences
    do not overlap, rows store to slots of their own, and the strides keep
    channels, slots and lanes apart. */
module ScanLayout {
  import opened Arithmetic
  import opened ScanKernel
  import opened ScanLaunch
  import opened ScanGrid

  /** Row-major strides for a tensor of one value per (row, position). */
  ghost predicate ViewOk(l: Launch, v: View)
    requires LaunchOk(l)
  {
    if l.queryStart.Some? then
      v.batchStride == 1 && 0 <= l.queryStart.value[0] && l.queryStart.value[l.batch] <= v.rowStride
    else
      l.seqlen <= v.rowStride && l.dim * v.rowStride <= v.batchStride
  }

  ghost predicate LayoutOk(l: Launch) {
    && LaunchOk(l)
    && ViewOk(l, l.deltaView) && (l.hasZ ==> ViewOk(l, l.zView))
    && l.dstate * l.ssmLane <= l.ssmDim && l.dim * l.ssmDim <= l.ssmSlot
  }

  /** The chunks of each row that is processed cover its query range. */
  ghost predicate ChunksCover(l: Launch)
    requires LaunchOk(l)
  {
    forall b :: 0 <= b < l.batch && !Skipped(l, b) ==> RowCuts(l, b)[|RowCuts(l, b)| - 1] == SeqLen(l, b)
  }

  lemma {:induction false} QueryMonotone(l: Launch, i: nat, j: nat)
    requires LaunchOk(l) && l.queryStart.Some? && i <= j <= l.batch
    ensures l.queryStart.value[i] <= l.queryStart.value[j]
    decreases j
  {
    if i < j { QueryMonotone(l, i, j - 1); }
  }

  lemma PackedApart(l: Launch, v: View, b: nat, d: nat, b': nat, d': nat, i: int)
    requires LaunchOk(l) && ViewOk(l, v) && l.queryStart.Some?
    requires b < l.batch && b' < l.batch
    requires Base(l, v, b, d) <= i < Base(l, v, b, d) + SeqLen(l, b)
    requires Base(l, v, b', d') <= i < Base(l, v, b', d') + SeqLen(l, b')
    ensures b == b' && d == d'
  {
    QueryMonotone(l, 0, b);
    QueryMonotone(l, 0, b');
    QueryMonotone(l, b + 1, l.batch);
    QueryMonotone(l, b' + 1, l.batch);
    if d < d' { Scale(d, d', v.rowStride); }
    if d' < d { Scale(d', d, v.rowStride); }
    if b < b' { QueryMonotone(l, b + 1, b'); }
    if b' < b { QueryMonotone(l, b' + 1, b); }
  }

  lemma BatchedApart(l: Launch, v: View, b: nat, d: nat, b': nat, d': nat, i: int)
    requires LaunchOk(l) && ViewOk(l, v) && l.queryStart.None?
    requires b < l.batch && b' < l.batch && d < l.dim && d' < l.dim
    requires Base(l, v, b, d) <= i < Base(l, v, b, d) + SeqLen(l, b)
    requires Base(l, v, b', d') <= i < Base(l, v, b', d') + SeqLen(l, b')
    ensures b == b' && d == d'
  {
    Scale(d, l.dim, v.rowStride);
    Scale(d', l.dim, v.rowStride);
    NonNegative(d, v.rowStride);
    NonNegative(d', v.rowStride);
    if b < b' { Scale(b, b', v.batchStride); }
    if b' < b { Scale(b', b, v.batchStride); }
    if d < d' { Scale(d, d', v.rowStride); }
    if d' < d { Scale(d', d, v.rowStride); }
  }

  lemma RangesApart(l: Launch, v: View, b: nat, d: nat, b': nat, d': nat, i: int)
    requires LaunchOk(l) && ViewOk(l, v)
    requires b < l.batch && b' < l.batch && d < l.dim && d' < l.dim
    requires Base(l, v, b, d) <= i < Base(l, v, b, d) + SeqLen(l, b)
    requires Base(l, v, b', d') <= i < Base(l, v, b', d') + SeqLen(l, b')
    ensures b == b' && d == d'
  {
    if l.queryStart.Some? { PackedApart(l, v, b, d, b', d', i); } else { BatchedApart(l, v, b, d, b', d', i); }
  }

  /** A state cell names its slot and its channel. */
  lemma StateCellsApart(l: Launch, d: nat, s: int, x: nat, d': nat, s': int, x': nat)
    requires LayoutOk(l) && d < l.dim && d' < l.dim && x < l.dstate && x' < l.dstate
    requires s * l.ssmSlot + d * l.ssmDim + x * l.ssmLane == s' * l.ssmSlot + d' * l.ssmDim + x' * l.ssmLane
    ensures s == s' && d == d'
  {
    hide LaunchOk, ViewOk;
    assert l.ssmLane >= 1 by { LaneStride(l); }
    Scale(x, l.dstate, l.ssmLane);
    Scale(x', l.dstate, l.ssmLane);
    NonNegative(x, l.ssmLane);
    NonNegative(x', l.ssmLane);
    Scale(d, l.dim, l.ssmDim);
    Scale(d', l.dim, l.ssmDim);
    NonNegative(d, l.ssmDim);
    NonNegative(d', l.ssmDim);
    if s < s' { Scale(s, s', l.ssmSlot); }
    if s' < s { Scale(s', s, l.ssmSlot); }
    if d < d' { Scale(d, d', l.ssmDim); }
    if d' < d { Scale(d', d, l.ssmDim); }
  }

  lemma LaneStride(l: Launch)
    requires LaunchOk(l)
    ensures l.ssmLane >= 1
  {}

  /** Each row that is processed stores to slots that no other such row stores to
      or loads its initial state from. */
  ghost predicate SlotsDisjoint(l: Launch)
    requires LaunchOk(l)
  {
    forall b, b', d, d', s ::
      && 0 <= b < l.batch && 0 <= b' < l.batch && b != b' && 0 <= d < l.dim && 0 <= d' < l.dim
      && !Skipped(l, b) && !Skipped(l, b')
      && Valid(Resolve(l, b, d)) && Valid(Resolve(l, b', d'))
      && StoresTo(Resolve(l, b, d), s)
      ==> !StoresTo(Resolve(l, b', d'), s) && (Resolve(l, b', d').hasInit ==> s != LoadSlot(l, b'))
  }

  /** Rows that hold the null block may be as many as they like. */
  lemma NullRowsDoNotClash(l: Launch, b: nat)
    requires LaunchOk(l) && forall c :: 0 <= c < l.batch && c != b ==> Skipped(l, c)
    ensures SlotsDisjoint(l)
  {
    hide Valid, StoresTo, Resolve;
  }

  lemma ProgramsApart(l: Launch, b: nat, d: nat, b': nat, d': nat)
    requires LayoutOk(l) && ChunksCover(l) && SlotsDisjoint(l)
    requires b < l.batch && b' < l.batch && d < l.dim && d' < l.dim && (b != b' || d != d')
    requires !Skipped(l, b) && !Skipped(l, b')
    requires Valid(Resolve(l, b, d)) && Valid(Resolve(l, b', d'))
    ensures Apart(Resolve(l, b, d), Resolve(l, b', d'))
  {
    hide Valid, ViewOk, RowCuts, RowStore, StoresTo, SeqLen, Base;
    var p, q := Resolve(l, b, d), Resolve(l, b', d');
    forall i ensures !(DeltaCell(p, i) && DeltaCell(q, i)) {
      if DeltaCell(p, i) && DeltaCell(q, i) { RangesApart(l, l.deltaView, b, d, b', d', i); }
    }
    forall i ensures !(GateCell(p, i) && GateCell(q, i)) {
      if GateCell(p, i) && GateCell(q, i) { RangesApart(l, l.zView, b, d, b', d', i); }
    }
    forall i ensures !(StateWritten(p, i) && StateCell(q, i)) {
      StatesApart(l, b, d, b', d', i);
    }
  }

  lemma StatesApart(l: Launch, b: nat, d: nat, b': nat, d': nat, i: int)
    requires LayoutOk(l) && SlotsDisjoint(l)
    requires b < l.batch && b' < l.batch && d < l.dim && d' < l.dim && (b != b' || d != d')
    requires !Skipped(l, b) && !Skipped(l, b')
    requires Valid(Resolve(l, b, d)) && Valid(Resolve(l, b', d'))
    ensures !(StateWritten(Resolve(l, b, d), i) && StateCell(Resolve(l, b', d'), i))
  {
    hide Valid, ViewOk, BlocksOk, RowCuts, RowStore, StoresTo, SeqLen, Base, InSlot;
    var p, q := Resolve(l, b, d), Resolve(l, b', d');
    forall s, s' | InSlot(p, s, i) && InSlot(q, s', i) ensures s == s' && d == d' {
      SlotCellsApart(l, b, d, s, b', d', s', i);
    }
  }

  lemma SlotCellsApart(l: Launch, b: nat, d: nat, s: int, b': nat, d': nat, s': int, i: int)
    requires LayoutOk(l) && b < l.batch && b' < l.batch && d < l.dim && d' < l.dim
    requires InSlot(Resolve(l, b, d), s, i) && InSlot(Resolve(l, b', d'), s', i)
    ensures s == s' && d == d'
  {
    hide ViewOk, RowCuts, RowStore, SeqLen, Base;
    var p, q := Resolve(l, b, d), Resolve(l, b', d');
    var x :| 0 <= x < Lanes(p) && i == SsmAddr(p, s, x);
    var x' :| 0 <= x' < Lanes(q) && i == SsmAddr(q, s', x');
    StateCellsApart(l, d, s, x, d', s', x');
  }

  // ---- The grid of a launch ----------------------------------------------------

  /** Some enumeration of the programs that do not return at once. */
  ghost predicate ActivePairs(l: Launch, pairs: seq<(nat, nat)>)
    requires LaunchOk(l)
  {
    && (forall i :: 0 <= i < |pairs| ==> pairs[i].0 < l.batch && pairs[i].1 < l.dim && !Skipped(l, pairs[i].0))
    && (forall i, j :: 0 <= i < j < |pairs| ==> pairs[i] != pairs[j])
  }

  ghost function Programs(l: Launch, pairs: seq<(nat, nat)>): (progs: seq<Prog>)
    requires LaunchOk(l) && ActivePairs(l, pairs)
    ensures |progs| == |pairs|
    ensures forall i :: 0 <= i < |pairs| ==> progs[i] == Resolve(l, pairs[i].0, pairs[i].1)
  {
    seq(|pairs|, i requires 0 <= i < |pairs| => Resolve(l, pairs[i].0, pairs[i].1))
  }

  ghost function After(l: Launch, pairs: seq<(nat, nat)>, m: Mem, schedule: seq<nat>, n: Sizes): (g: Grid)
    requires LaunchOk(l) && ActivePairs(l, pairs) && Sized(m, n) && Independent(Programs(l, pairs), n)
    ensures GridOk(Programs(l, pairs), g, n)
  {
    Interleave(Programs(l, pairs), GridStart(Programs(l, pairs), m, n), schedule, n)
  }

  /** The grid of a launch is order-independent: whatever the interleaving of its
      programs, memory ends as if they had run one after the other. */
  lemma LaunchOrderIndependent(l: Launch, pairs: seq<(nat, nat)>, m: Mem, schedule: seq<nat>, n: Sizes)
    requires LayoutOk(l) && ChunksCover(l) && SlotsDisjoint(l) && ActivePairs(l, pairs) && Sized(m, n)
    requires forall i :: 0 <= i < |pairs| ==> FitsIn(Programs(l, pairs)[i], n)
    ensures Independent(Programs(l, pairs), n)
    ensures Complete(Programs(l, pairs), After(l, pairs, m, schedule, n).pcs, n) ==>
      After(l, pairs, m, schedule, n).mem == Sequential(Programs(l, pairs), |pairs|, m, n)
  {
    hide Valid, ChunksCover, SlotsDisjoint, Resolve, Apart, Complete, Interleave, GridStart, Sequential;
    var progs := Programs(l, pairs);
    forall i, j | 0 <= i < |progs| && 0 <= j < |progs| && i != j ensures Apart(progs[i], progs[j]) {
      ProgramsApart(l, pairs[i].0, pairs[i].1, pairs[j].0, pairs[j].1);
    }
    if Complete(progs, Interleave(progs, GridStart(progs, m, n), schedule, n).pcs, n) {
      GridOrderIndependent(progs, m, schedule, n);
    }
  }

  /** The entry a row would load its state from is the null block. */
  ghost predicate HoldsNullBlock(l: Launch, b: nat)
    requires LaunchOk(l) && b < l.batch
  {
    match l.cache
    case PerBatch => false
    case Indexed(indices) => indices[b] == l.nullBlock
    case Blocks(table, initialStateIdx, _, _, _, _, _) => table[b][initialStateIdx[b]] == l.nullBlock
  }

  /** One program of the grid, as launched: nothing at all for a skipped row. */
  method LaunchProgram(l: Launch, b: nat, d: nat, delta: array<real>, z: array<real>, ssm: array<real>)
    requires LaunchOk(l) && b < l.batch && d < l.dim
    requires !Skipped(l, b) ==> Fits(Resolve(l, b, d), delta.Length, z.Length, ssm.Length)
    requires delta != z && delta != ssm && z != ssm
    modifies delta, z, ssm
    ensures HoldsNullBlock(l, b) ==> Mem(delta[..], z[..], ssm[..]) == old(Mem(delta[..], z[..], ssm[..]))
    ensures !HoldsNullBlock(l, b) ==>
      Mem(delta[..], z[..], ssm[..]) == Run(Resolve(l, b, d), old(Mem(delta[..], z[..], ssm[..])))
  {
    if Skipped(l, b) { return; }
    RunProgram(Resolve(l, b, d), delta, z, ssm);
  }
}
