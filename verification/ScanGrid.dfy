/** Programs of a grid interleaved one memory operation at a time. When no
    program writes a cell that another one reads or writes, every complete
    interleaving leaves the memory that running the programs one after the
    other leaves. */
module ScanGrid {
  import opened SelectiveScan
  import opened ScanKernel

  datatype Sizes = Sizes(delta: nat, z: nat, ssm: nat)

  ghost predicate FitsIn(p: Prog, n: Sizes) {
    Fits(p, n.delta, n.z, n.ssm)
  }

  // ---- A program as the list of its memory operations ------------------------

  function TokenOps(p: Prog, pos: int): seq<Op> {
    [AdvanceTo(pos), StoreOut(pos)] + if p.hasZ then [LoadGate(pos), StoreGate(pos)] else []
  }

  function RangeOps(p: Prog, lo: int, hi: int): seq<Op>
    requires lo <= hi
    decreases hi - lo
  {
    if lo == hi then [] else RangeOps(p, lo, hi - 1) + TokenOps(p, hi - 1)
  }

  function ChunkOps(p: Prog, k: nat): seq<Op>
    requires Valid(p) && k <= ChunkCount(p)
  {
    if k == 0 then []
    else
      ChunkOps(p, k - 1) + RangeOps(p, p.cuts[k-1], p.cuts[k])
      + if p.store.Blocked? then [StoreState(SlotOf(p, k - 1))] else []
  }

  function Ops(p: Prog): seq<Op>
    requires Valid(p)
  {
    (if p.hasInit then [LoadState] else [])
    + ChunkOps(p, ChunkCount(p))
    + if p.store.Final? then [StoreState(p.loadSlot)] else []
  }

  /** A slot the program stores to. */
  ghost predicate StoresTo(p: Prog, slot: int)
    requires Valid(p)
  {
    if p.store.Final? then slot == p.loadSlot
    else exists c :: 0 <= c < ChunkCount(p) && SlotOf(p, c) == slot
  }

  /** An operation of the program, inside the tensors of the given sizes. */
  ghost predicate Own(p: Prog, op: Op, n: Sizes) {
    && FitsIn(p, n)
    && (op.AdvanceTo? || op.StoreOut? || op.LoadGate? || op.StoreGate? ==> 0 <= op.pos < Length(p))
    && (op.LoadGate? || op.StoreGate? ==> p.hasZ)
    && (op.LoadState? ==> p.hasInit)
    && (op.StoreState? ==> StoresTo(p, op.slot) && SlotFits(p, op.slot, n.ssm))
  }

  ghost predicate OwnAll(p: Prog, ops: seq<Op>, n: Sizes) {
    FitsIn(p, n) && forall i :: 0 <= i < |ops| ==> Own(p, ops[i], n)
  }

  lemma {:induction false} RangeOwn(p: Prog, lo: int, hi: int, n: Sizes)
    requires FitsIn(p, n) && 0 <= lo <= hi <= Length(p)
    ensures OwnAll(p, RangeOps(p, lo, hi), n)
    decreases hi - lo
  {
    hide FitsIn;
    if lo < hi { RangeOwn(p, lo, hi - 1, n); }
  }

  lemma {:induction false} ChunksOwn(p: Prog, k: nat, n: Sizes)
    requires FitsIn(p, n) && k <= ChunkCount(p)
    ensures OwnAll(p, ChunkOps(p, k), n)
  {
    if k > 0 {
      ChunksOwn(p, k - 1, n);
      RangeOwn(p, p.cuts[k-1], p.cuts[k], n);
      hide RangeOps;
      if p.store.Blocked? {
        assert StoresTo(p, SlotOf(p, k - 1));
      }
    }
  }

  lemma OpsOwn(p: Prog, n: Sizes)
    requires FitsIn(p, n)
    ensures OwnAll(p, Ops(p), n)
  {
    hide ChunkOps, BlockOf;
    ChunksOwn(p, ChunkCount(p), n);
  }

  ghost predicate Sized(m: Mem, n: Sizes) {
    |m.delta| == n.delta && |m.z| == n.z && |m.ssm| == n.ssm
  }

  /** Running a list of operations. */
  ghost function ExecAll(p: Prog, ops: seq<Op>, c: Config, n: Sizes): (r: Config)
    requires Sized(c.mem, n) && OwnAll(p, ops, n) && RegsOk(p, c.regs)
    ensures Sized(r.mem, n) && RegsOk(p, r.regs)
  {
    if |ops| == 0 then c
    else
      assert Own(p, ops[|ops|-1], n);
      Exec(p, ops[|ops|-1], ExecAll(p, ops[..|ops|-1], c, n))
  }

  lemma {:induction false} ExecConcat(p: Prog, a: seq<Op>, b: seq<Op>, c: Config, n: Sizes)
    requires Sized(c.mem, n) && RegsOk(p, c.regs)
    requires OwnAll(p, a, n) && OwnAll(p, b, n)
    ensures OwnAll(p, a + b, n)
    ensures ExecAll(p, a + b, c, n) == ExecAll(p, b, ExecAll(p, a, c, n), n)
  {
    hide FitsIn, Exec, Own;
    if |b| == 0 {
      assert a + b == a;
    } else {
      ExecConcat(p, a, b[..|b|-1], c, n);
      assert (a + b)[..|a + b|-1] == a + b[..|b|-1];
    }
  }

  lemma ExecOne(p: Prog, op: Op, c: Config, n: Sizes)
    requires Sized(c.mem, n) && RegsOk(p, c.regs) && Own(p, op, n)
    ensures OwnAll(p, [op], n)
    ensures ExecAll(p, [op], c, n) == Exec(p, op, c)
  {
    hide FitsIn, Exec;
    assert [op][..0] == [];
  }

  lemma TokenExec(p: Prog, pos: int, c: Config, n: Sizes)
    requires Sized(c.mem, n) && RegsOk(p, c.regs) && FitsIn(p, n) && 0 <= pos < Length(p)
    ensures OwnAll(p, TokenOps(p, pos), n)
    ensures ExecAll(p, TokenOps(p, pos), c, n) == Step(p, pos, c)
  {
    hide Fits, Exec;
    var a, b := AdvanceTo(pos), StoreOut(pos);
    ExecOne(p, a, c, n);
    var c1 := Exec(p, a, c);
    ExecOne(p, b, c1, n);
    ExecConcat(p, [a], [b], c, n);
    assert [a] + [b] == [a, b];
    var c2 := Exec(p, b, c1);
    if p.hasZ {
      var g, h := LoadGate(pos), StoreGate(pos);
      ExecOne(p, g, c2, n);
      ExecOne(p, h, Exec(p, g, c2), n);
      ExecConcat(p, [g], [h], c2, n);
      assert [g] + [h] == [g, h];
      ExecConcat(p, [a, b], [g, h], c, n);
    } else {
      assert TokenOps(p, pos) == [a, b];
    }
  }

  lemma {:induction false} RangeExec(p: Prog, lo: int, hi: int, c: Config, n: Sizes)
    requires Sized(c.mem, n) && RegsOk(p, c.regs) && FitsIn(p, n) && 0 <= lo <= hi <= Length(p)
    ensures OwnAll(p, RangeOps(p, lo, hi), n)
    ensures ExecAll(p, RangeOps(p, lo, hi), c, n) == Steps(p, lo, hi, c)
    decreases hi - lo
  {
    hide FitsIn, Step, TokenOps, Own;
    if lo < hi {
      RangeExec(p, lo, hi - 1, c, n);
      TokenExec(p, hi - 1, Steps(p, lo, hi - 1, c), n);
      ExecConcat(p, RangeOps(p, lo, hi - 1), TokenOps(p, hi - 1), c, n);
    }
  }

  lemma {:induction false} ChunksExec(p: Prog, k: nat, c: Config, n: Sizes)
    requires Sized(c.mem, n) && RegsOk(p, c.regs) && FitsIn(p, n) && k <= ChunkCount(p)
    ensures OwnAll(p, ChunkOps(p, k), n)
    ensures ExecAll(p, ChunkOps(p, k), c, n) == Chunks(p, k, c)
  {
    hide Exec, RangeOps, Steps, BlockOf, SsmAddr, Own, StoresTo;
    ChunksOwn(p, k, n);
    if k > 0 {
      ChunksExec(p, k - 1, c, n);
      var before, range := ChunkOps(p, k - 1), RangeOps(p, p.cuts[k-1], p.cuts[k]);
      RangeExec(p, p.cuts[k-1], p.cuts[k], Chunks(p, k - 1, c), n);
      ExecConcat(p, before, range, c, n);
      if p.store.Blocked? {
        var op := StoreState(SlotOf(p, k - 1));
        var ops := ChunkOps(p, k);
        assert ops[|ops| - 1] == op;
        ExecOne(p, op, ExecAll(p, before + range, c, n), n);
        ExecConcat(p, before + range, [op], c, n);
      } else {
        assert ChunkOps(p, k) == before + range;
      }
    }
  }

  function InitialRegs(p: Prog): Regs { Regs(Zeros(Width(p)), 0.0, 0.0) }

  /** The operations of a program, run alone, are the program. */
  lemma OpsAreRun(p: Prog, m: Mem, n: Sizes)
    requires Sized(m, n) && FitsIn(p, n)
    ensures OwnAll(p, Ops(p), n)
    ensures ExecAll(p, Ops(p), Config(InitialRegs(p), m), n).mem == Run(p, m)
  {
    hide Exec, ChunkOps, BlockOf, Chunks;
    OpsOwn(p, n);
    var c0 := Config(InitialRegs(p), m);
    var init, body := if p.hasInit then [LoadState] else [], ChunkOps(p, ChunkCount(p));
    var tail := if p.store.Final? then [StoreState(p.loadSlot)] else [];
    if p.hasInit { ExecOne(p, LoadState, c0, n); }
    assert ExecAll(p, init, c0, n) == Start(p, m);
    ChunksExec(p, ChunkCount(p), Start(p, m), n);
    ExecConcat(p, init, body, c0, n);
    if p.store.Final? {
      ExecOne(p, StoreState(p.loadSlot), Chunks(p, ChunkCount(p), Start(p, m)), n);
      ExecConcat(p, init + body, tail, c0, n);
    } else {
      assert Ops(p) == init + body;
    }
  }

  // ---- Which cells a program touches -----------------------------------------

  ghost predicate DeltaCell(p: Prog, i: int)
    requires |p.cuts| >= 1
  {
    p.deltaBase <= i < p.deltaBase + Length(p)
  }

  ghost predicate GateCell(p: Prog, i: int)
    requires |p.cuts| >= 1
  {
    p.hasZ && p.zBase <= i < p.zBase + Length(p)
  }

  ghost predicate InSlot(p: Prog, slot: int, i: int) {
    exists lane :: 0 <= lane < Lanes(p) && i == SsmAddr(p, slot, lane)
  }

  ghost predicate StateWritten(p: Prog, i: int)
    requires Valid(p)
  {
    exists slot :: StoresTo(p, slot) && InSlot(p, slot, i)
  }

  ghost predicate StateCell(p: Prog, i: int)
    requires Valid(p)
  {
    StateWritten(p, i) || (p.hasInit && InSlot(p, p.loadSlot, i))
  }

  /** Two memories agree on every cell the program reads or writes. */
  ghost predicate Agree(p: Prog, a: Mem, b: Mem, n: Sizes)
    requires FitsIn(p, n) && Sized(a, n) && Sized(b, n)
  {
    && (forall i :: 0 <= i < n.delta && DeltaCell(p, i) ==> a.delta[i] == b.delta[i])
    && (forall i :: 0 <= i < n.z && GateCell(p, i) ==> a.z[i] == b.z[i])
    && (forall i :: 0 <= i < n.ssm && StateCell(p, i) ==> a.ssm[i] == b.ssm[i])
  }

  /** Two memories agree on every cell the program does not write. */
  ghost predicate Framed(p: Prog, a: Mem, b: Mem, n: Sizes)
    requires FitsIn(p, n) && Sized(a, n) && Sized(b, n)
  {
    && (forall i :: 0 <= i < n.delta && !DeltaCell(p, i) ==> a.delta[i] == b.delta[i])
    && (forall i :: 0 <= i < n.z && !GateCell(p, i) ==> a.z[i] == b.z[i])
    && (forall i :: 0 <= i < n.ssm && !StateWritten(p, i) ==> a.ssm[i] == b.ssm[i])
  }

  /** Storing lanes in two memories: equal where they were equal, and equal on
      every cell of the slot. */
  lemma {:induction false} StoreLocal(p: Prog, a: seq<real>, b: seq<real>, slot: int, state: seq<real>, k: nat, i: nat)
    requires |a| == |b| && SlotFits(p, slot, |a|) && k <= Lanes(p) && |state| >= Lanes(p) && i < |a|
    ensures a[i] == b[i] ==> StoreLanes(p, a, slot, state, k)[i] == StoreLanes(p, b, slot, state, k)[i]
    ensures !InSlot(p, slot, i) ==> StoreLanes(p, a, slot, state, k)[i] == a[i]
  {
    hide SsmAddr;
    if k > 0 { StoreLocal(p, a, b, slot, state, k - 1, i); }
  }

  /** An operation of a program depends only on the cells the program touches. */
  lemma ExecLocal(p: Prog, op: Op, c: Config, d: Config, n: Sizes)
    requires Own(p, op, n) && RegsOk(p, c.regs) && c.regs == d.regs
    requires Sized(c.mem, n) && Sized(d.mem, n) && Agree(p, c.mem, d.mem, n)
    ensures Exec(p, op, c).regs == Exec(p, op, d).regs
    ensures Agree(p, Exec(p, op, c).mem, Exec(p, op, d).mem, n)
  {
    hide SsmAddr, Advance, Output, Pad, StoreLanes;
    match op {
      case LoadState =>
        forall lane | 0 <= lane < Lanes(p)
          ensures c.mem.ssm[SsmAddr(p, p.loadSlot, lane)] == d.mem.ssm[SsmAddr(p, p.loadSlot, lane)]
        {
          assert InSlot(p, p.loadSlot, SsmAddr(p, p.loadSlot, lane));
        }
        assert LoadLanes(p, c.mem.ssm, p.loadSlot) == LoadLanes(p, d.mem.ssm, p.loadSlot);
      case AdvanceTo(pos) =>
        assert DeltaCell(p, p.deltaBase + pos);
        assert p.hasZ ==> GateCell(p, p.zBase + pos);
        assert TokenAt(p, c.mem, pos) == TokenAt(p, d.mem, pos);
      case LoadGate(pos) =>
        assert GateCell(p, p.zBase + pos);
      case StoreState(slot) =>
        forall i | 0 <= i < n.ssm && StateCell(p, i)
          ensures Exec(p, op, c).mem.ssm[i] == Exec(p, op, d).mem.ssm[i]
        {
          StoreLocal(p, c.mem.ssm, d.mem.ssm, slot, c.regs.state, Lanes(p), i);
        }
      case _ =>
    }
  }

  /** An operation of a program changes only cells the program writes. */
  lemma ExecFramed(p: Prog, op: Op, c: Config, n: Sizes)
    requires Own(p, op, n) && RegsOk(p, c.regs) && Sized(c.mem, n)
    ensures Framed(p, c.mem, Exec(p, op, c).mem, n)
  {
    hide SsmAddr, Advance, Output, Pad, StoreLanes;
    if op.StoreState? {
      forall i | 0 <= i < n.ssm && !StateWritten(p, i) ensures c.mem.ssm[i] == Exec(p, op, c).mem.ssm[i] {
        StoreLocal(p, c.mem.ssm, c.mem.ssm, op.slot, c.regs.state, Lanes(p), i);
      }
    }
  }

  // ---- Interleavings ----------------------------------------------------------

  /** No cell written by one program is read or written by the other. */
  ghost predicate Apart(p: Prog, q: Prog)
    requires Valid(p) && Valid(q)
  {
    && (forall i :: !(DeltaCell(p, i) && DeltaCell(q, i)))
    && (forall i :: !(GateCell(p, i) && GateCell(q, i)))
    && (forall i :: !(StateWritten(p, i) && StateCell(q, i)))
  }

  ghost predicate Independent(progs: seq<Prog>, n: Sizes) {
    && (forall i :: 0 <= i < |progs| ==> FitsIn(progs[i], n))
    && (forall i, j :: 0 <= i < |progs| && 0 <= j < |progs| && i != j ==> Apart(progs[i], progs[j]))
  }

  /** A program run alone on m0, up to its first k operations. */
  ghost function Solo(p: Prog, m0: Mem, k: nat, n: Sizes): (r: Config)
    requires FitsIn(p, n) && Sized(m0, n) && k <= |Ops(p)|
    ensures Sized(r.mem, n) && RegsOk(p, r.regs)
  {
    OpsOwn(p, n);
    ExecAll(p, Ops(p)[..k], Config(InitialRegs(p), m0), n)
  }

  datatype Grid = Grid(mem: Mem, regs: seq<Regs>, pcs: seq<nat>)

  ghost predicate GridOk(progs: seq<Prog>, g: Grid, n: Sizes)
    requires Independent(progs, n)
  {
    && |g.regs| == |g.pcs| == |progs| && Sized(g.mem, n)
    && (forall i :: 0 <= i < |progs| ==> RegsOk(progs[i], g.regs[i]) && g.pcs[i] <= |Ops(progs[i])|)
  }

  /** Program i does its next operation; a finished or absent program does nothing. */
  ghost function GridStep(progs: seq<Prog>, g: Grid, i: nat, n: Sizes): (r: Grid)
    requires Independent(progs, n) && GridOk(progs, g, n)
    ensures GridOk(progs, r, n)
  {
    if i < |progs| && g.pcs[i] < |Ops(progs[i])| then
      OpsOwn(progs[i], n);
      assert Own(progs[i], Ops(progs[i])[g.pcs[i]], n);
      var c := Exec(progs[i], Ops(progs[i])[g.pcs[i]], Config(g.regs[i], g.mem));
      Grid(c.mem, g.regs[i := c.regs], g.pcs[i := g.pcs[i] + 1])
    else g
  }

  /** Any schedule: a list of program indices. */
  ghost function Interleave(progs: seq<Prog>, g: Grid, schedule: seq<nat>, n: Sizes): (r: Grid)
    requires Independent(progs, n) && GridOk(progs, g, n)
    ensures GridOk(progs, r, n)
  {
    if |schedule| == 0 then g
    else GridStep(progs, Interleave(progs, g, schedule[..|schedule|-1], n), schedule[|schedule|-1], n)
  }

  ghost function GridStart(progs: seq<Prog>, m: Mem, n: Sizes): (g: Grid)
    requires Independent(progs, n) && Sized(m, n)
    ensures GridOk(progs, g, n)
  {
    Grid(m, seq(|progs|, i requires 0 <= i < |progs| => InitialRegs(progs[i])), seq(|progs|, i => 0))
  }

  ghost predicate Complete(progs: seq<Prog>, pcs: seq<nat>, n: Sizes)
    requires Independent(progs, n) && |pcs| == |progs|
  {
    forall i :: 0 <= i < |progs| ==> pcs[i] == |Ops(progs[i])|
  }

  /** Cells no program writes are as they were. */
  ghost predicate Untouched(progs: seq<Prog>, m0: Mem, m: Mem, n: Sizes)
    requires Independent(progs, n) && Sized(m0, n) && Sized(m, n)
  {
    && (forall c :: 0 <= c < n.delta && (forall i :: 0 <= i < |progs| ==> !DeltaCell(progs[i], c)) ==>
          m.delta[c] == m0.delta[c])
    && (forall c :: 0 <= c < n.z && (forall i :: 0 <= i < |progs| ==> !GateCell(progs[i], c)) ==>
          m.z[c] == m0.z[c])
    && (forall c :: 0 <= c < n.ssm && (forall i :: 0 <= i < |progs| ==> !StateWritten(progs[i], c)) ==>
          m.ssm[c] == m0.ssm[c])
  }

  /** On the cells it touches, each program sees what it would see alone. */
  ghost predicate Isolated(progs: seq<Prog>, m0: Mem, pcs: seq<nat>, m: Mem, n: Sizes)
    requires Independent(progs, n) && Sized(m0, n) && Sized(m, n) && |pcs| == |progs|
    requires forall i :: 0 <= i < |progs| ==> pcs[i] <= |Ops(progs[i])|
  {
    && Untouched(progs, m0, m, n)
    && (forall i :: 0 <= i < |progs| ==> Agree(progs[i], m, Solo(progs[i], m0, pcs[i], n).mem, n))
  }

  /** What one program changes, an independent one does not see. */
  lemma FramedAgree(p: Prog, q: Prog, a: Mem, b: Mem, s: Mem, n: Sizes)
    requires FitsIn(p, n) && FitsIn(q, n) && Sized(a, n) && Sized(b, n) && Sized(s, n)
    requires Apart(p, q) && Framed(p, a, b, n) && Agree(q, a, s, n)
    ensures Agree(q, b, s, n)
  {}

  lemma FramedUntouched(progs: seq<Prog>, i: nat, m0: Mem, a: Mem, b: Mem, n: Sizes)
    requires Independent(progs, n) && Sized(m0, n) && Sized(a, n) && Sized(b, n) && i < |progs|
    requires Untouched(progs, m0, a, n) && Framed(progs[i], a, b, n)
    ensures Untouched(progs, m0, b, n)
  {}

  lemma SoloNext(p: Prog, m0: Mem, k: nat, n: Sizes)
    requires FitsIn(p, n) && Sized(m0, n) && k < |Ops(p)|
    ensures Own(p, Ops(p)[k], n)
    ensures Solo(p, m0, k + 1, n) == Exec(p, Ops(p)[k], Solo(p, m0, k, n))
  {
    hide Exec, Valid, Own;
    OpsOwn(p, n);
    var ops := Ops(p)[..k + 1];
    assert ops[..|ops| - 1] == Ops(p)[..k];
  }

  ghost predicate GridInv(progs: seq<Prog>, m0: Mem, g: Grid, n: Sizes)
    requires Independent(progs, n) && Sized(m0, n) && GridOk(progs, g, n)
  {
    && Isolated(progs, m0, g.pcs, g.mem, n)
    && (forall i :: 0 <= i < |progs| ==> g.regs[i] == Solo(progs[i], m0, g.pcs[i], n).regs)
  }

  lemma GridStepKeeps(progs: seq<Prog>, m0: Mem, g: Grid, i: nat, n: Sizes)
    requires Independent(progs, n) && Sized(m0, n) && GridOk(progs, g, n) && GridInv(progs, m0, g, n)
    ensures GridInv(progs, m0, GridStep(progs, g, i, n), n)
  {
    hide Exec, Ops, Agree, Untouched, Framed, Apart, Valid, Solo;
    if i < |progs| && g.pcs[i] < |Ops(progs[i])| {
      var p, k := progs[i], g.pcs[i];
      var h := GridStep(progs, g, i, n);
      SoloNext(p, m0, k, n);
      var op := Ops(p)[k];
      ExecLocal(p, op, Config(g.regs[i], g.mem), Solo(p, m0, k, n), n);
      ExecFramed(p, op, Config(g.regs[i], g.mem), n);
      FramedUntouched(progs, i, m0, g.mem, h.mem, n);
      forall j | 0 <= j < |progs| ensures Agree(progs[j], h.mem, Solo(progs[j], m0, h.pcs[j], n).mem, n) {
        if j != i { FramedAgree(p, progs[j], g.mem, h.mem, Solo(progs[j], m0, g.pcs[j], n).mem, n); }
      }
    }
  }

  lemma {:induction false} InterleaveKeeps(progs: seq<Prog>, m: Mem, schedule: seq<nat>, n: Sizes)
    requires Independent(progs, n) && Sized(m, n)
    ensures GridInv(progs, m, Interleave(progs, GridStart(progs, m, n), schedule, n), n)
  {
    hide Agree, Exec, Ops, Valid;
    if |schedule| == 0 {
      forall i | 0 <= i < |progs| ensures Solo(progs[i], m, 0, n) == Config(InitialRegs(progs[i]), m) {
        assert Ops(progs[i])[..0] == [];
      }
      forall i | 0 <= i < |progs| ensures Agree(progs[i], m, m, n) { AgreeSelf(progs[i], m, n); }
    } else {
      hide GridInv, GridStep;
      InterleaveKeeps(progs, m, schedule[..|schedule|-1], n);
      GridStepKeeps(progs, m, Interleave(progs, GridStart(progs, m, n), schedule[..|schedule|-1], n),
                    schedule[|schedule|-1], n);
    }
  }

  lemma AgreeSelf(p: Prog, m: Mem, n: Sizes)
    requires FitsIn(p, n) && Sized(m, n)
    ensures Agree(p, m, m, n)
  {}

  /** Complete runs that keep the programs isolated leave one and the same memory. */
  lemma OneOutcome(progs: seq<Prog>, m0: Mem, pcs: seq<nat>, a: Mem, b: Mem, n: Sizes)
    requires Independent(progs, n) && Sized(m0, n) && Sized(a, n) && Sized(b, n) && |pcs| == |progs|
    requires Complete(progs, pcs, n)
    requires Isolated(progs, m0, pcs, a, n) && Isolated(progs, m0, pcs, b, n)
    ensures a == b
  {
    hide Valid, Solo, Ops, InSlot;
    assert a.delta == b.delta;
    assert a.z == b.z;
    forall c | 0 <= c < n.ssm ensures a.ssm[c] == b.ssm[c] {
      if i :| 0 <= i < |progs| && StateWritten(progs[i], c) {
        assert StateCell(progs[i], c);
      }
    }
  }

  // ---- The programs one after the other ----------------------------------------

  ghost function Sequential(progs: seq<Prog>, k: nat, m: Mem, n: Sizes): (r: Mem)
    requires Independent(progs, n) && Sized(m, n) && k <= |progs|
    ensures Sized(r, n)
  {
    if k == 0 then m else Run(progs[k-1], Sequential(progs, k - 1, m, n))
  }

  lemma {:induction false} ExecAllLocal(p: Prog, ops: seq<Op>, c: Config, d: Config, n: Sizes)
    requires OwnAll(p, ops, n) && RegsOk(p, c.regs) && c.regs == d.regs
    requires Sized(c.mem, n) && Sized(d.mem, n) && Agree(p, c.mem, d.mem, n)
    ensures Agree(p, ExecAll(p, ops, c, n).mem, ExecAll(p, ops, d, n).mem, n)
    ensures ExecAll(p, ops, c, n).regs == ExecAll(p, ops, d, n).regs
    ensures Framed(p, c.mem, ExecAll(p, ops, c, n).mem, n)
  {
    hide Exec, Agree, Own, Valid;
    if |ops| > 0 {
      var init, op := ops[..|ops|-1], ops[|ops|-1];
      ExecAllLocal(p, init, c, d, n);
      ExecLocal(p, op, ExecAll(p, init, c, n), ExecAll(p, init, d, n), n);
      ExecFramed(p, op, ExecAll(p, init, c, n), n);
    }
  }

  /** A whole program, run on any memory that agrees with m0 on its cells. */
  lemma RunLocal(p: Prog, m0: Mem, m: Mem, n: Sizes)
    requires FitsIn(p, n) && Sized(m0, n) && Sized(m, n) && Agree(p, m, m0, n)
    ensures Agree(p, Run(p, m), Solo(p, m0, |Ops(p)|, n).mem, n)
    ensures Framed(p, m, Run(p, m), n)
  {
    hide Agree, Framed, ExecAll, Run, Valid;
    OpsAreRun(p, m, n);
    assert Ops(p)[..|Ops(p)|] == Ops(p);
    ExecAllLocal(p, Ops(p), Config(InitialRegs(p), m), Config(InitialRegs(p), m0), n);
  }

  ghost function PcsAfter(progs: seq<Prog>, k: nat, n: Sizes): (pcs: seq<nat>)
    requires Independent(progs, n)
    ensures |pcs| == |progs|
    ensures forall i :: 0 <= i < |progs| ==> pcs[i] == if i < k then |Ops(progs[i])| else 0
  {
    seq(|progs|, i requires 0 <= i < |progs| => if i < k then |Ops(progs[i])| else 0)
  }

  lemma {:induction false} SequentialIsolated(progs: seq<Prog>, k: nat, m: Mem, n: Sizes)
    requires Independent(progs, n) && Sized(m, n) && k <= |progs|
    ensures Isolated(progs, m, PcsAfter(progs, k, n), Sequential(progs, k, m, n), n)
  {
    hide Agree, Run, Framed, Untouched, Apart, Ops, Valid, Solo;
    if k == 0 {
      forall i | 0 <= i < |progs| ensures Agree(progs[i], m, Solo(progs[i], m, 0, n).mem, n) {
        SoloZero(progs[i], m, n);
        AgreeSelf(progs[i], m, n);
      }
      UntouchedSelf(progs, m, n);
    } else {
      SequentialIsolated(progs, k - 1, m, n);
      var p, before := progs[k-1], Sequential(progs, k - 1, m, n);
      var after := Run(p, before);
      SoloZero(p, m, n);
      RunLocal(p, m, before, n);
      FramedUntouched(progs, k - 1, m, before, after, n);
      forall j | 0 <= j < |progs| ensures Agree(progs[j], after, Solo(progs[j], m, PcsAfter(progs, k, n)[j], n).mem, n) {
        if j != k - 1 {
          FramedAgree(p, progs[j], before, after, Solo(progs[j], m, PcsAfter(progs, k - 1, n)[j], n).mem, n);
        }
      }
    }
  }

  lemma SoloZero(p: Prog, m: Mem, n: Sizes)
    requires FitsIn(p, n) && Sized(m, n)
    ensures Solo(p, m, 0, n) == Config(InitialRegs(p), m)
  {
    assert Ops(p)[..0] == [];
  }

  lemma UntouchedSelf(progs: seq<Prog>, m: Mem, n: Sizes)
    requires Independent(progs, n) && Sized(m, n)
    ensures Untouched(progs, m, m, n)
  {}

  /** Every schedule that lets all programs finish ends in the memory of running
      them one after the other. */
  lemma GridOrderIndependent(progs: seq<Prog>, m: Mem, schedule: seq<nat>, n: Sizes)
    requires Independent(progs, n) && Sized(m, n)
    requires Complete(progs, Interleave(progs, GridStart(progs, m, n), schedule, n).pcs, n)
    ensures Interleave(progs, GridStart(progs, m, n), schedule, n).mem == Sequential(progs, |progs|, m, n)
  {
    hide Ops, Agree, Untouched, Interleave, Sequential, Solo, Valid, Apart, GridStart;
    var g := Interleave(progs, GridStart(progs, m, n), schedule, n);
    InterleaveKeeps(progs, m, schedule, n);
    SequentialIsolated(progs, |progs|, m, n);
    assert PcsAfter(progs, |progs|, n) == g.pcs;
    OneOutcome(progs, m, g.pcs, g.mem, Sequential(progs, |progs|, m, n), n);
  }

  /** Under every complete schedule each program's cells end as if it had run alone. */
  lemma EachAsAlone(progs: seq<Prog>, m: Mem, schedule: seq<nat>, n: Sizes, i: nat)
    requires Independent(progs, n) && Sized(m, n) && i < |progs|
    requires Complete(progs, Interleave(progs, GridStart(progs, m, n), schedule, n).pcs, n)
    ensures Agree(progs[i], Interleave(progs, GridStart(progs, m, n), schedule, n).mem, Run(progs[i], m), n)
  {
    hide Agree, Run, Valid, Untouched, Apart, Ops, Interleave, GridStart;
    InterleaveKeeps(progs, m, schedule, n);
    OpsAreRun(progs[i], m, n);
    assert Ops(progs[i])[..|Ops(progs[i])|] == Ops(progs[i]);
  }
}
