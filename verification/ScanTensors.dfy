/** What a launch computes, in terms of its tensors: which cells each row and channel
    reads and writes, and the explicit sums that end up in them. Nothing here
    mentions the programs in its conclusions. */
module ScanTensors {
  import opened Arithmetic
  import opened Wrappers
  import opened SelectiveScan
  import opened ScanUnrolled
  import opened ScanKernel
  import opened ScanRefinement
  import opened ScanMetadata
  import opened ScanLaunch
  import opened ScanPrefixCache
  import opened ScanGrid
  import opened ScanLayout
  import opened ScanLaunchExact

  /** The read-only inputs as tensors: u by row, channel and position; B and C by row,
      group, lane and position; A by channel and lane; D and the bias by channel. */
  datatype Tensors = Tensors(
    u: (int, int, int) -> real, B: (int, int, int, int) -> real, C: (int, int, int, int) -> real,
    A: (int, int) -> real, D: int -> real, bias: int -> real)

  /** Where position `pos` of a row and channel (or group) lies: packed rows follow
      each other along the token axis, batched rows have a batch axis. */
  ghost function Cell(l: Launch, v: View, b: nat, row: int, pos: int): int
    requires LaunchOk(l) && b < l.batch
  {
    match l.queryStart
    case Some(starts) => row * v.rowStride + (starts[b] + pos) * v.batchStride
    case None => b * v.batchStride + row * v.rowStride + pos
  }

  /** The kernel adds the position itself, so along the token axis it reads the right
      cell exactly when that axis is contiguous, or at the first token. */
  lemma KernelCell(l: Launch, v: View, b: nat, row: int, pos: int)
    requires LaunchOk(l) && b < l.batch
    ensures Base(l, v, b, row) + pos == Cell(l, v, b, row, pos)
       <==> l.queryStart.None? || pos == 0 || v.batchStride == 1
  {
    if l.queryStart.Some? {
      var q := l.queryStart.value[b];
      assert (q + pos) * v.batchStride == q * v.batchStride + pos * v.batchStride;
      UnitFactor(pos, v.batchStride);
    }
  }

  lemma UnitFactor(x: int, s: int)
    ensures x * s == x <==> x == 0 || s == 1
  {
    if x > 0 && s > 1 { Scale(1, s, x); }
    if x < 0 && s > 1 { Scale(1, s, -x); assert s * -x == -(s * x); }
    if x > 0 && s < 1 { Scale(s, 1, x); }
    if x < 0 && s < 1 { Scale(s, 1, -x); assert s * -x == -(s * x); }
  }

  /** Packed tensors are contiguous along the token axis. */
  ghost predicate Contiguous(l: Launch) {
    l.queryStart.Some? ==>
      && l.uView.batchStride == 1 && l.bView.batchStride == 1 && l.cView.batchStride == 1
      && l.deltaView.batchStride == 1 && (l.hasZ ==> l.zView.batchStride == 1)
  }

  /** Channel d belongs to group g: groups are runs of `ratio` channels. */
  ghost predicate InGroup(l: Launch, d: int, g: int) {
    g * l.ratio <= d < g * l.ratio + l.ratio
  }

  /** The flat memories of the launch hold the tensors. */
  ghost predicate Carries(l: Launch, t: Tensors)
    requires LaunchOk(l)
  {
    && (forall b, d, pos :: 0 <= b < l.batch && 0 <= d < l.dim && 0 <= pos < SeqLen(l, b) ==>
          l.u(Cell(l, l.uView, b, d, pos)) == t.u(b, d, pos))
    && (forall b, g, n, pos :: 0 <= b < l.batch && 0 <= g && g * l.ratio < l.dim && 0 <= n < l.dstate && 0 <= pos < SeqLen(l, b) ==>
          l.B(Cell(l, l.bView, b, g, pos) + n * l.bLane) == t.B(b, g, n, pos))
    && (forall b, g, n, pos :: 0 <= b < l.batch && 0 <= g && g * l.ratio < l.dim && 0 <= n < l.dstate && 0 <= pos < SeqLen(l, b) ==>
          l.C(Cell(l, l.cView, b, g, pos) + n * l.cLane) == t.C(b, g, n, pos))
    && (forall d, n :: 0 <= d < l.dim && 0 <= n < l.dstate ==> l.A(d * l.aRow + n * l.aLane) == t.A(d, n))
    && (l.D.Some? ==> forall d :: 0 <= d < l.dim ==> l.D.value(d) == t.D(d))
    && (l.bias.Some? ==> forall d :: 0 <= d < l.dim ==> l.bias.value(d) == t.bias(d))
  }

  /** The slot a row starts from. */
  ghost function StartSlot(l: Launch, b: nat): int
    requires LaunchOk(l) && b < l.batch
  {
    match l.cache
    case PerBatch => b
    case Indexed(indices) => indices[b]
    case Blocks(table, initialStateIdx, _, _, _, _, _) => table[b][initialStateIdx[b]]
  }

  ghost function StateAddr(l: Launch, slot: int, d: int, n: int): int {
    slot * l.ssmSlot + d * l.ssmDim + n * l.ssmLane
  }

  /** The lanes a row and channel start from: those of its slot if it has an initial
      state, and zero otherwise. */
  ghost predicate StartsFrom(l: Launch, m: Mem, b: nat, d: nat, s0: seq<real>)
    requires LaunchOk(l) && b < l.batch
  {
    && |s0| == l.dstate
    && if l.hasInitialState.Some? && l.hasInitialState.value[b] then
         forall n :: 0 <= n < l.dstate ==>
           0 <= StateAddr(l, StartSlot(l, b), d, n) < |m.ssm| && s0[n] == m.ssm[StateAddr(l, StartSlot(l, b), d, n)]
       else
         forall n :: 0 <= n < l.dstate ==> s0[n] == 0.0
  }

  /** The step sizes of a row and channel. */
  ghost predicate StepSizes(l: Launch, t: Tensors, m: Mem, b: nat, d: nat, ds: seq<real>)
    requires LaunchOk(l) && b < l.batch
  {
    && |ds| == SeqLen(l, b)
    && forall k :: 0 <= k < |ds| ==>
         && 0 <= Cell(l, l.deltaView, b, d, k) < |m.delta|
         && IsDelta(l.math, if l.bias.Some? then Some(t.bias(d)) else None, l.softplus, m.delta[Cell(l, l.deltaView, b, d, k)], ds[k])
  }

  /** Lane n of a row and channel after the first k positions, as an explicit sum. */
  ghost function LaneOf(l: Launch, t: Tensors, b: nat, d: nat, g: int, n: nat, x0: real, ds: seq<real>, k: nat): real
    requires k <= |ds|
  {
    LaneAfter(l.math, t.A(d, n), x0, ds[..k], seq(k, j => t.u(b, d, j)), seq(k, j => t.B(b, g, n, j)))
  }

  /** All lanes after the first k positions. */
  ghost predicate LanesAre(l: Launch, t: Tensors, b: nat, d: nat, g: int, s0: seq<real>, ds: seq<real>, k: nat, xs: seq<real>) {
    && k <= |ds| && |xs| == |s0| == l.dstate
    && forall n :: 0 <= n < l.dstate ==> xs[n] == LaneOf(l, t, b, d, g, n, s0[n], ds, k)
  }

  /** The output at a position, from the lanes after it. */
  ghost function OutputOf(l: Launch, t: Tensors, b: nat, d: nat, g: int, pos: nat, xs: seq<real>): real
    requires |xs| == l.dstate
  {
    LaneSum(seq(l.dstate, n => t.C(b, g, n, pos)), xs, l.dstate) + (if l.D.Some? then t.D(d) * t.u(b, d, pos) else 0.0)
  }

  // ---- What a program reads ---------------------------------------------------------------

  /** The setting of all that follows: row b, channel d of group g, with its start and
      its step sizes. */
  ghost predicate Setting(l: Launch, t: Tensors, m: Mem, b: nat, d: nat, g: int, s0: seq<real>, ds: seq<real>) {
    && LaunchOk(l) && Contiguous(l) && Carries(l, t) && b < l.batch && d < l.dim && InGroup(l, d, g)
    && FitsMem(Resolve(l, b, d), m) && Length(Resolve(l, b, d)) == SeqLen(l, b)
    && StartsFrom(l, m, b, d, s0) && StepSizes(l, t, m, b, d, ds)
  }

  lemma GroupIs(l: Launch, d: nat, g: int)
    requires l.ratio > 0 && InGroup(l, d, g)
    ensures d / l.ratio == g && g >= 0
  {
    DivUnique(d, l.ratio, g, d - g * l.ratio);
  }

  /** The inputs at the addresses a program computes. */
  lemma InputsAre(l: Launch, t: Tensors, b: nat, d: nat, g: int, pos: nat)
    requires LaunchOk(l) && Contiguous(l) && Carries(l, t) && b < l.batch && d < l.dim && pos < SeqLen(l, b)
    requires g >= 0 && InGroup(l, d, g)
    ensures l.u(Base(l, l.uView, b, d) + pos) == t.u(b, d, pos)
    ensures forall n :: 0 <= n < l.dstate ==> l.B(Base(l, l.bView, b, g) + n * l.bLane + pos) == t.B(b, g, n, pos)
    ensures forall n :: 0 <= n < l.dstate ==> l.C(Base(l, l.cView, b, g) + n * l.cLane + pos) == t.C(b, g, n, pos)
  {
    hide LaunchOk, Cell, Base;
    KernelCell(l, l.uView, b, d, pos);
    KernelCell(l, l.bView, b, g, pos);
    KernelCell(l, l.cView, b, g, pos);
    forall n | 0 <= n < l.dstate
      ensures l.B(Base(l, l.bView, b, g) + n * l.bLane + pos) == t.B(b, g, n, pos)
      ensures l.C(Base(l, l.cView, b, g) + n * l.cLane + pos) == t.C(b, g, n, pos)
    {
      assert Base(l, l.bView, b, g) + n * l.bLane + pos == Cell(l, l.bView, b, g, pos) + n * l.bLane;
      assert Base(l, l.cView, b, g) + n * l.cLane + pos == Cell(l, l.cView, b, g, pos) + n * l.cLane;
    }
  }

  /** The token a program reads at a position. */
  lemma TokenIs(l: Launch, t: Tensors, m: Mem, b: nat, d: nat, g: int, s0: seq<real>, ds: seq<real>, pos: nat)
    requires Setting(l, t, m, b, d, g, s0, ds) && pos < SeqLen(l, b)
    ensures 0 <= Cell(l, l.deltaView, b, d, pos) < |m.delta| && (l.hasZ ==> 0 <= Cell(l, l.zView, b, d, pos) < |m.z|)
    ensures Resolve(l, b, d).deltaBase + pos == Cell(l, l.deltaView, b, d, pos)
    ensures l.hasZ ==> Resolve(l, b, d).zBase + pos == Cell(l, l.zView, b, d, pos)
    ensures var k := Tokens(Resolve(l, b, d), m)[pos];
      && k.u == t.u(b, d, pos) && k.delta == m.delta[Cell(l, l.deltaView, b, d, pos)]
      && k.B == seq(l.dstate, n => t.B(b, g, n, pos)) && k.C == seq(l.dstate, n => t.C(b, g, n, pos))
      && (l.hasZ ==> k.z == m.z[Cell(l, l.zView, b, d, pos)])
  {
    hide Valid, BlocksOk, RowCuts, RowStore, Cell, Base, StepSizes, StartsFrom, Carries;
    GroupIs(l, d, g);
    KernelCell(l, l.deltaView, b, d, pos);
    KernelCell(l, l.zView, b, d, pos);
    InputsAre(l, t, b, d, g, pos);
    var k := Tokens(Resolve(l, b, d), m)[pos];
    assert k.B == seq(l.dstate, n => t.B(b, g, n, pos));
    assert k.C == seq(l.dstate, n => t.C(b, g, n, pos));
  }

  /** What it starts from, and its constants. */
  lemma ProgramIs(l: Launch, t: Tensors, m: Mem, b: nat, d: nat, g: int, s0: seq<real>, ds: seq<real>)
    requires Setting(l, t, m, b, d, g, s0, ds)
    ensures Initial(Resolve(l, b, d), m) == s0
    ensures Resolve(l, b, d).math == l.math && Resolve(l, b, d).hasZ == l.hasZ
    ensures var ch := Resolve(l, b, d).ch;
      && |ch.A| == l.dstate && (forall n :: 0 <= n < l.dstate ==> ch.A[n] == t.A(d, n)) && ch.softplus == l.softplus
      && ch.D == (if l.D.Some? then Some(t.D(d)) else None) && ch.bias == (if l.bias.Some? then Some(t.bias(d)) else None)
  {
    hide Valid, BlocksOk, RowCuts, RowStore, Cell, Base, StepSizes;
    assert Initial(Resolve(l, b, d), m) == s0 by {
      var p := Resolve(l, b, d);
      forall n | 0 <= n < l.dstate ensures SsmAddr(p, StartSlot(l, b), n) == StateAddr(l, StartSlot(l, b), d, n) {}
    }
  }

  /** The program's step sizes, inputs and lanes are the tensors'. */
  lemma LanesUnroll(l: Launch, t: Tensors, m: Mem, b: nat, d: nat, g: int, s0: seq<real>, ds: seq<real>, k: nat, xs: seq<real>)
    requires Setting(l, t, m, b, d, g, s0, ds) && k <= SeqLen(l, b) && LanesAre(l, t, b, d, g, s0, ds, k, xs)
    ensures StateAt(Resolve(l, b, d), m, k) == xs
    ensures AreDeltas(l.math, Resolve(l, b, d).ch, Tokens(Resolve(l, b, d), m), ds)
    ensures forall n :: 0 <= n < l.dstate ==>
      xs[n] == LaneAfter(l.math, Resolve(l, b, d).ch.A[n], s0[n], ds[..k], Us(Tokens(Resolve(l, b, d), m)[..k]), Bs(Tokens(Resolve(l, b, d), m)[..k], n))
  {
    hide Valid, Resolve, Tokens, LaneAfter, Scan, IsDelta, Cell, LaunchOk, Carries;
    var p := Resolve(l, b, d);
    var ts := Tokens(p, m);
    ProgramIs(l, t, m, b, d, g, s0, ds);
    forall j | 0 <= j < SeqLen(l, b)
      ensures ts[j].u == t.u(b, d, j) && ts[j].B == seq(l.dstate, n => t.B(b, g, n, j))
      ensures IsDelta(l.math, p.ch.bias, p.ch.softplus, ts[j].delta, ds[j])
    {
      TokenIs(l, t, m, b, d, g, s0, ds, j);
    }
    forall n | 0 <= n < l.dstate
      ensures xs[n] == LaneAfter(l.math, p.ch.A[n], s0[n], ds[..k], Us(ts[..k]), Bs(ts[..k], n))
      ensures StateAt(p, m, k)[n] == xs[n]
    {
      assert Us(ts[..k]) == seq(k, j => t.u(b, d, j));
      assert Bs(ts[..k], n) == seq(k, j => t.B(b, g, n, j));
      ScanUnrolls(l.math, p.ch, s0, ts[..k], ds[..k], n);
    }
  }

  /** One program: every output is D * u plus the sum over lanes of C times the decayed
      start and the decayed inputs delta * u * B of the positions so far, of its own
      row, channel and group; and the gated output is that times z / (1 + exp(-z)). */
  lemma ProgramComputes(l: Launch, t: Tensors, m: Mem, b: nat, d: nat, g: int, s0: seq<real>, ds: seq<real>, pos: nat, xs: seq<real>)
    requires Setting(l, t, m, b, d, g, s0, ds) && pos < SeqLen(l, b) && LanesAre(l, t, b, d, g, s0, ds, pos + 1, xs)
    ensures 0 <= Cell(l, l.deltaView, b, d, pos) < |m.delta| && (l.hasZ ==> 0 <= Cell(l, l.zView, b, d, pos) < |m.z|)
    ensures Run(Resolve(l, b, d), m).delta[Cell(l, l.deltaView, b, d, pos)] == OutputOf(l, t, b, d, g, pos, xs)
    ensures l.hasZ ==>
      var z := m.z[Cell(l, l.zView, b, d, pos)];
      1.0 + l.math.exp(-z) > 0.0 &&
      Run(Resolve(l, b, d), m).z[Cell(l, l.zView, b, d, pos)] == OutputOf(l, t, b, d, g, pos, xs) * z / (1.0 + l.math.exp(-z))
  {
    hide Valid, Resolve, Tokens, LaneAfter, Scan, IsDelta, Cell, Carries, OutputAt, Run, LanesAre, StepSizes, StartsFrom;
    var p := Resolve(l, b, d);
    var ts := Tokens(p, m);
    ProgramIs(l, t, m, b, d, g, s0, ds);
    LanesUnroll(l, t, m, b, d, g, s0, ds, pos + 1, xs);
    TokenIs(l, t, m, b, d, g, s0, ds, pos);
    OutputUnrolls(l.math, p.ch, s0, ts, ds, pos, xs);
    RunRefinesRecurrence(p, m);
    assert Run(p, m).delta[p.deltaBase + pos] == OutAt(p, m, pos);
  }

  /** The state it leaves in a slot it stores through. */
  lemma ProgramStores(l: Launch, t: Tensors, m: Mem, b: nat, d: nat, g: int, s0: seq<real>, ds: seq<real>, k: nat, xs: seq<real>, slot: int, n: nat)
    requires Setting(l, t, m, b, d, g, s0, ds) && k <= SeqLen(l, b) && LanesAre(l, t, b, d, g, s0, ds, k, xs) && n < l.dstate
    requires SlotFits(Resolve(l, b, d), slot, |m.ssm|)
    requires LoadLanes(Resolve(l, b, d), Run(Resolve(l, b, d), m).ssm, slot) == StateAt(Resolve(l, b, d), m, k)
    ensures 0 <= StateAddr(l, slot, d, n) < |m.ssm| && Run(Resolve(l, b, d), m).ssm[StateAddr(l, slot, d, n)] == xs[n]
  {
    hide Valid, BlocksOk, RowCuts, RowStore, Cell, Base, StepSizes, StartsFrom, Run, LanesAre, Carries, StateAt;
    LanesUnroll(l, t, m, b, d, g, s0, ds, k, xs);
    assert SsmAddr(Resolve(l, b, d), slot, n) == StateAddr(l, slot, d, n);
    assert LoadLanes(Resolve(l, b, d), Run(Resolve(l, b, d), m).ssm, slot)[n] == xs[n];
  }

  // ---- Whole launches -----------------------------------------------------------------------

  /** A launch whose programs fit their tensors and store to slots of their own. */
  ghost predicate Launched(l: Launch, pairs: seq<(nat, nat)>, m: Mem, sizes: Sizes) {
    && LayoutOk(l) && ChunksCover(l) && SlotsDisjoint(l) && ActivePairs(l, pairs) && Sized(m, sizes)
    && forall i :: 0 <= i < |pairs| ==> FitsIn(Resolve(l, pairs[i].0, pairs[i].1), sizes)
  }

  /** The memory and progress after a schedule. */
  ghost function Ended(l: Launch, pairs: seq<(nat, nat)>, m: Mem, schedule: seq<nat>, sizes: Sizes): (r: Grid)
    requires Launched(l, pairs, m, sizes)
    ensures Sized(r.mem, sizes) && |r.pcs| == |pairs| && Independent(Programs(l, pairs), sizes)
  {
    LaunchOrderIndependent(l, pairs, m, schedule, sizes);
    After(l, pairs, m, schedule, sizes)
  }

  ghost predicate Finished(l: Launch, pairs: seq<(nat, nat)>, m: Mem, schedule: seq<nat>, sizes: Sizes)
    requires Launched(l, pairs, m, sizes)
  {
    Complete(Programs(l, pairs), Ended(l, pairs, m, schedule, sizes).pcs, sizes)
  }

  lemma AsAlone(l: Launch, pairs: seq<(nat, nat)>, m: Mem, schedule: seq<nat>, sizes: Sizes, i: nat)
    requires Launched(l, pairs, m, sizes) && Finished(l, pairs, m, schedule, sizes) && i < |pairs|
    ensures Agree(Resolve(l, pairs[i].0, pairs[i].1), Ended(l, pairs, m, schedule, sizes).mem, Run(Resolve(l, pairs[i].0, pairs[i].1), m), sizes)
    ensures Length(Resolve(l, pairs[i].0, pairs[i].1)) == SeqLen(l, pairs[i].0)
  {
    hide Agree, Run, Independent, SlotsDisjoint, Interleave, Complete, FitsIn, Resolve;
    LaunchOrderIndependent(l, pairs, m, schedule, sizes);
    EachAsAlone(Programs(l, pairs), m, schedule, sizes, i);
    LengthIs(l, pairs[i].0, pairs[i].1);
  }

  lemma LengthIs(l: Launch, b: nat, d: nat)
    requires LayoutOk(l) && ChunksCover(l) && b < l.batch && d < l.dim && !Skipped(l, b)
    ensures |Resolve(l, b, d).cuts| >= 1 && Length(Resolve(l, b, d)) == SeqLen(l, b)
  {
    hide RowStore, Base;
  }

  /** Whatever the schedule of a launch, every cell of `delta` and `z` that belongs to a
      processed row ends with the explicit output of its row, channel, group and
      position. */
  lemma LaunchComputes(l: Launch, t: Tensors, pairs: seq<(nat, nat)>, m: Mem, schedule: seq<nat>, sizes: Sizes,
                       i: nat, g: int, s0: seq<real>, ds: seq<real>, pos: nat, xs: seq<real>)
    requires Launched(l, pairs, m, sizes) && Finished(l, pairs, m, schedule, sizes) && i < |pairs|
    requires Setting(l, t, m, pairs[i].0, pairs[i].1, g, s0, ds) && pos < SeqLen(l, pairs[i].0)
    requires LanesAre(l, t, pairs[i].0, pairs[i].1, g, s0, ds, pos + 1, xs)
    ensures var final, b, d := Ended(l, pairs, m, schedule, sizes).mem, pairs[i].0, pairs[i].1;
      && 0 <= Cell(l, l.deltaView, b, d, pos) < |m.delta| == |final.delta|
      && final.delta[Cell(l, l.deltaView, b, d, pos)] == OutputOf(l, t, b, d, g, pos, xs)
    ensures l.hasZ ==>
      var final, b, d := Ended(l, pairs, m, schedule, sizes).mem, pairs[i].0, pairs[i].1;
      && 0 <= Cell(l, l.zView, b, d, pos) < |m.z| == |final.z|
      && var z := m.z[Cell(l, l.zView, b, d, pos)];
         1.0 + l.math.exp(-z) > 0.0
         && final.z[Cell(l, l.zView, b, d, pos)] == OutputOf(l, t, b, d, g, pos, xs) * z / (1.0 + l.math.exp(-z))
  {
    hide Valid, Resolve, Run, LanesAre, StepSizes, StartsFrom, Carries, SlotsDisjoint, Finished, Ended, Cell, ChunksCover, ActivePairs, OutputOf;
    var b, d := pairs[i].0, pairs[i].1;
    ProgramComputes(l, t, m, b, d, g, s0, ds, pos, xs);
    TokenIs(l, t, m, b, d, g, s0, ds, pos);
    AsAlone(l, pairs, m, schedule, sizes, i);
    ProgramIs(l, t, m, b, d, g, s0, ds);
    CellsAgree(Resolve(l, b, d), Ended(l, pairs, m, schedule, sizes).mem, Run(Resolve(l, b, d), m), sizes, pos);
  }

  lemma CellsAgree(p: Prog, a: Mem, b: Mem, sizes: Sizes, pos: nat)
    requires FitsIn(p, sizes) && Sized(a, sizes) && Sized(b, sizes) && Agree(p, a, b, sizes) && pos < Length(p)
    ensures a.delta[p.deltaBase + pos] == b.delta[p.deltaBase + pos]
    ensures p.hasZ ==> a.z[p.zBase + pos] == b.z[p.zBase + pos]
  {
    hide SsmAddr, StoresTo, InSlot;
    assert DeltaCell(p, p.deltaBase + pos);
    assert p.hasZ ==> GateCell(p, p.zBase + pos);
  }

  /** A memory that agrees with a program's own run on what it writes holds its lanes
      in every slot it stores through. */
  lemma SlotEnds(l: Launch, t: Tensors, m: Mem, final: Mem, sizes: Sizes, b: nat, d: nat, g: int, s0: seq<real>, ds: seq<real>,
                 k: nat, xs: seq<real>, slot: int, n: nat)
    requires Setting(l, t, m, b, d, g, s0, ds) && k <= SeqLen(l, b) && LanesAre(l, t, b, d, g, s0, ds, k, xs) && n < l.dstate
    requires FitsIn(Resolve(l, b, d), sizes) && Sized(m, sizes) && Sized(final, sizes)
    requires Agree(Resolve(l, b, d), final, Run(Resolve(l, b, d), m), sizes)
    requires StoresTo(Resolve(l, b, d), slot) && SlotFits(Resolve(l, b, d), slot, |m.ssm|)
    requires LoadLanes(Resolve(l, b, d), Run(Resolve(l, b, d), m).ssm, slot) == StateAt(Resolve(l, b, d), m, k)
    ensures 0 <= StateAddr(l, slot, d, n) < |final.ssm| && final.ssm[StateAddr(l, slot, d, n)] == xs[n]
  {
    hide Valid, Run, LanesAre, StepSizes, StartsFrom, Carries, Cell, RowCuts, RowStore, Base, Agree, StateAt, BlocksOk, StoresTo;
    var p := Resolve(l, b, d);
    ProgramStores(l, t, m, b, d, g, s0, ds, k, xs, slot, n);
    SlotAgrees(p, final, Run(p, m), sizes, slot);
    LaneAt(p, final.ssm, Run(p, m).ssm, slot, n);
  }

  /** Without a block table, the slot a row started from ends with its final state. */
  lemma LaunchLeavesFinalState(l: Launch, t: Tensors, pairs: seq<(nat, nat)>, m: Mem, schedule: seq<nat>, sizes: Sizes,
                               i: nat, g: int, s0: seq<real>, ds: seq<real>, xs: seq<real>, n: nat)
    requires Launched(l, pairs, m, sizes) && Finished(l, pairs, m, schedule, sizes) && i < |pairs| && !l.cache.Blocks?
    requires Setting(l, t, m, pairs[i].0, pairs[i].1, g, s0, ds) && n < l.dstate
    requires SeqLen(l, pairs[i].0) >= 0 && LanesAre(l, t, pairs[i].0, pairs[i].1, g, s0, ds, SeqLen(l, pairs[i].0), xs)
    ensures var final, b, d := Ended(l, pairs, m, schedule, sizes).mem, pairs[i].0, pairs[i].1;
      0 <= StateAddr(l, StartSlot(l, b), d, n) < |final.ssm| && final.ssm[StateAddr(l, StartSlot(l, b), d, n)] == xs[n]
  {
    hide Valid, Run, LanesAre, StepSizes, StartsFrom, Carries, SlotsDisjoint, Finished, Ended, Cell, ChunksCover, ActivePairs, RowCuts, Base, Agree;
    var b, d := pairs[i].0, pairs[i].1;
    var p := Resolve(l, b, d);
    LayoutKeepsSlotsApart(l, b, d);
    FinalStateStored(p, m);
    AsAlone(l, pairs, m, schedule, sizes, i);
    SlotEnds(l, t, m, Ended(l, pairs, m, schedule, sizes).mem, sizes, b, d, g, s0, ds, SeqLen(l, b), xs, StartSlot(l, b), n);
  }

  lemma LaneAt(p: Prog, a: seq<real>, b: seq<real>, slot: int, n: nat)
    requires SlotFits(p, slot, |a|) && SlotFits(p, slot, |b|) && LoadLanes(p, a, slot) == LoadLanes(p, b, slot) && n < Lanes(p)
    ensures 0 <= SsmAddr(p, slot, n) < |a| && SsmAddr(p, slot, n) < |b| && a[SsmAddr(p, slot, n)] == b[SsmAddr(p, slot, n)]
  {
    hide SsmAddr;
    assert LoadLanes(p, a, slot)[n] == LoadLanes(p, b, slot)[n];
  }

  /** The block of chunk c ends after k tokens of the row, or the row does. */
  ghost predicate BlockEnd(l: Launch, rows: seq<Row>, b: nat, c: nat, k: nat)
    requires LaunchOk(l) && l.cache.Blocks? && b < l.batch == |rows|
  {
    rows[b].computed + k ==
      if l.cache.first[b] + c < l.cache.last[b] then (l.cache.first[b] + c + 1) * l.cache.blockSize
      else rows[b].computed + rows[b].tokens
  }

  /** Lane n of channel d in the slot of block-table entry `first + c` of row b is x. */
  ghost predicate EntryHolds(l: Launch, final: Mem, b: nat, d: nat, c: nat, n: nat, x: real)
    requires LaunchOk(l) && l.cache.Blocks? && b < l.batch
  {
    && 0 <= l.cache.first[b] + c < |l.cache.table[b]|
    && var cell := StateAddr(l, l.cache.table[b][l.cache.first[b] + c], d, n);
       0 <= cell < |final.ssm| && final.ssm[cell] == x
  }

  /** With a block table and the builder's metadata, entry `first + c` ends with the
      lanes after the tokens up to the end of that block, and the last with all. */
  lemma LaunchLeavesCheckpoints(l: Launch, t: Tensors, rows: seq<Row>, pairs: seq<(nat, nat)>, m: Mem, schedule: seq<nat>, sizes: Sizes,
                                i: nat, g: int, s0: seq<real>, ds: seq<real>, c: nat, k: nat, xs: seq<real>, n: nat)
    requires Launched(l, pairs, m, sizes) && Finished(l, pairs, m, schedule, sizes) && i < |pairs|
    requires Setting(l, t, m, pairs[i].0, pairs[i].1, g, s0, ds) && n < l.dstate
    requires Prefill(l, rows, pairs[i].0) && DistinctSlots(l.cache, pairs[i].0) && c < RowChunks(l.cache, pairs[i].0)
    requires BlockEnd(l, rows, pairs[i].0, c, k)
    requires LanesAre(l, t, pairs[i].0, pairs[i].1, g, s0, ds, k, xs)
    ensures EntryHolds(l, Ended(l, pairs, m, schedule, sizes).mem, pairs[i].0, pairs[i].1, c, n, xs[n])
  {
    hide Valid, Resolve, Run, LanesAre, StepSizes, StartsFrom, Carries, SlotsDisjoint, Finished, Ended, Cell, ChunksCover, ActivePairs, Agree, Built, DistinctSlots, StateAt, StoresTo, SlotFits, StateAddr, FitsIn, BlockEnd;
    var b, d := pairs[i].0, pairs[i].1;
    CheckpointIs(l, rows, b, d, m, c, k);
    AsAlone(l, pairs, m, schedule, sizes, i);
    var slot := l.cache.table[b][l.cache.first[b] + c];
    SlotEnds(l, t, m, Ended(l, pairs, m, schedule, sizes).mem, sizes, b, d, g, s0, ds, k, xs, slot, n);
  }

  lemma CheckpointIs(l: Launch, rows: seq<Row>, b: nat, d: nat, m: Mem, c: nat, k: nat)
    requires LayoutOk(l) && Prefill(l, rows, b) && d < l.dim && DistinctSlots(l.cache, b) && c < RowChunks(l.cache, b)
    requires FitsMem(Resolve(l, b, d), m)
    requires BlockEnd(l, rows, b, c, k)
    ensures 0 <= l.cache.first[b] + c < |l.cache.table[b]| && k <= Length(Resolve(l, b, d))
    ensures StoresTo(Resolve(l, b, d), l.cache.table[b][l.cache.first[b] + c])
    ensures SlotFits(Resolve(l, b, d), l.cache.table[b][l.cache.first[b] + c], |m.ssm|)
    ensures LoadLanes(Resolve(l, b, d), Run(Resolve(l, b, d), m).ssm, l.cache.table[b][l.cache.first[b] + c]) == StateAt(Resolve(l, b, d), m, k)
  {
    hide Run, Built, RowCuts, BlockOf, SlotFits, DistinctSlots, ViewOk, StateAt, LastWriter, Base;
    var p := Resolve(l, b, d);
    LayoutKeepsSlotsApart(l, b, d);
    ChunksAreBlocks(l, rows, b);
    ChunkIsBlock(l, rows, b, d, c);
    NoOverwrite(l, rows, b, d, c);
    Checkpoint(p, m, c);
    assert SlotOf(p, c) == l.cache.table[b][l.cache.first[b] + c];
    assert p.cuts[c + 1] == k;
  }
}
