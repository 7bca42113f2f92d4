/** One program of the selective-scan kernel, over flat memory: `out` is `delta`
    and `out_z` is `z`, the state is padded to a power of two, and the state is
    stored through a block table at every chunk end. */
module ScanKernel {
  import opened Arithmetic
  import opened SelectiveScan

  /** Where the chunk ends store: one final store to the slot loaded from, or a
      store per chunk through a row of the block table. */
  datatype Store =
    | Final
    | Blocked(row: seq<int>, first: int, last: int, blockSize: int, startOffset: int)

  /** A program after its scalar set-up: bases, strides, chunk cuts and slots.
      `cuts[c]` is the position at which chunk c starts. */
  datatype Prog = Prog(
    math: Math,
    ch: Channel,
    u: int -> real, B: int -> seq<real>, C: int -> seq<real>,
    deltaBase: int, zBase: int, hasZ: bool,
    ssmBase: int, slotStride: int, laneStride: int,
    loadSlot: int, hasInit: bool,
    cuts: seq<int>,
    store: Store)

  /** The tensors a program writes. */
  datatype Mem = Mem(delta: seq<real>, z: seq<real>, ssm: seq<real>)

  datatype Regs = Regs(state: seq<real>, out: real, gated: real)

  datatype Config = Config(regs: Regs, mem: Mem)

  // ---- Shapes --------------------------------------------------------------

  function Lanes(p: Prog): nat { |p.ch.A| }

  function Width(p: Prog): (w: nat)
    ensures Lanes(p) <= w
  {
    NextPowerOfTwo(Lanes(p))
  }

  function ChunkCount(p: Prog): nat
    requires |p.cuts| >= 1
  {
    |p.cuts| - 1
  }

  function Length(p: Prog): int
    requires |p.cuts| >= 1
  {
    p.cuts[|p.cuts| - 1]
  }

  /** The position of the sequence at which chunk c starts, in absolute tokens. */
  function PositionAt(p: Prog, c: nat): int
    requires c < |p.cuts| && p.store.Blocked?
  {
    p.store.first * p.store.blockSize + p.store.startOffset + p.cuts[c]
  }

  /** The block-table entry that the end of chunk c is stored through. */
  function BlockOf(p: Prog, c: nat): int
    requires |p.cuts| >= 1 && c < ChunkCount(p) && p.store.Blocked? && p.store.blockSize > 0
  {
    if c == ChunkCount(p) - 1 then p.store.last
    else (PositionAt(p, c) + (p.cuts[c+1] - p.cuts[c]) - 1) / p.store.blockSize
  }

  /** The last token of chunk c, in absolute positions, lies in `block`. */
  ghost predicate LastTokenIn(p: Prog, c: nat, block: int)
    requires c + 1 < |p.cuts| && p.store.Blocked?
  {
    block * p.store.blockSize <= PositionAt(p, c + 1) - 1 < block * p.store.blockSize + p.store.blockSize
  }

  function SlotOf(p: Prog, c: nat): int
    requires |p.cuts| >= 1 && c < ChunkCount(p) && p.store.Blocked? && p.store.blockSize > 0
    requires 0 <= BlockOf(p, c) < |p.store.row|
  {
    p.store.row[BlockOf(p, c)]
  }

  ghost predicate Valid(p: Prog) {
    && Positive(p.math)
    && (forall pos {:trigger p.B(pos)} :: |p.B(pos)| == Lanes(p))
    && (forall pos {:trigger p.C(pos)} :: |p.C(pos)| == Lanes(p))
    && p.laneStride >= 1
    && |p.cuts| >= 1 && p.cuts[0] == 0
    && (forall i, j :: 0 <= i <= j < |p.cuts| ==> p.cuts[i] <= p.cuts[j])
    && (p.store.Final? ==> |p.cuts| == 2)
    && (p.store.Blocked? ==>
          && p.store.blockSize > 0 && 0 <= p.store.last < |p.store.row|
          && forall c :: 0 <= c < ChunkCount(p) ==> 0 <= BlockOf(p, c) < |p.store.row|)
  }

  function SsmAddr(p: Prog, slot: int, lane: int): int {
    slot * p.slotStride + p.ssmBase + lane * p.laneStride
  }

  ghost predicate SlotFits(p: Prog, slot: int, ns: nat) {
    forall n :: 0 <= n < Lanes(p) ==> 0 <= SsmAddr(p, slot, n) < ns
  }

  /** Every access of the program is inside its tensor. */
  ghost predicate Fits(p: Prog, nd: nat, nz: nat, ns: nat) {
    && Valid(p)
    && 0 <= p.deltaBase && p.deltaBase + Length(p) <= nd
    && (p.hasZ ==> 0 <= p.zBase && p.zBase + Length(p) <= nz)
    && (p.hasInit || p.store.Final? ==> SlotFits(p, p.loadSlot, ns))
    && (p.store.Blocked? ==> forall c :: 0 <= c < ChunkCount(p) ==> SlotFits(p, SlotOf(p, c), ns))
  }

  ghost predicate FitsMem(p: Prog, m: Mem) {
    Fits(p, |m.delta|, |m.z|, |m.ssm|)
  }

  // ---- One memory operation at a time --------------------------------------

  datatype Op =
    | LoadState
    | AdvanceTo(pos: int)
    | StoreOut(pos: int)
    | LoadGate(pos: int)
    | StoreGate(pos: int)
    | StoreState(slot: int)

  ghost predicate OpFits(p: Prog, op: Op, m: Mem) {
    && FitsMem(p, m)
    && (op.AdvanceTo? || op.StoreOut? || op.LoadGate? || op.StoreGate? ==> 0 <= op.pos < Length(p))
    && (op.LoadGate? || op.StoreGate? ==> p.hasZ)
    && (op.LoadState? ==> p.hasInit)
    && (op.StoreState? ==> SlotFits(p, op.slot, |m.ssm|))
  }

  function LoadLanes(p: Prog, ssm: seq<real>, slot: int): (r: seq<real>)
    requires SlotFits(p, slot, |ssm|)
    ensures |r| == Lanes(p)
  {
    seq(Lanes(p), n requires 0 <= n < Lanes(p) => ssm[SsmAddr(p, slot, n)])
  }

  /** `ssm` with the first k lanes of `slot` overwritten. */
  function StoreLanes(p: Prog, ssm: seq<real>, slot: int, state: seq<real>, k: nat): (r: seq<real>)
    requires SlotFits(p, slot, |ssm|) && k <= Lanes(p) && |state| >= Lanes(p)
    ensures |r| == |ssm|
  {
    if k == 0 then ssm
    else StoreLanes(p, ssm, slot, state, k - 1)[SsmAddr(p, slot, k - 1) := state[k - 1]]
  }

  /** The token the kernel reads at a position, from memory as it is now. */
  function TokenAt(p: Prog, m: Mem, pos: int): Token
    requires FitsMem(p, m) && 0 <= pos < Length(p)
  {
    Token(p.u(pos), m.delta[p.deltaBase + pos], p.B(pos), p.C(pos),
          if p.hasZ then m.z[p.zBase + pos] else 0.0)
  }

  ghost predicate RegsOk(p: Prog, r: Regs) { |r.state| == Width(p) }

  function Exec(p: Prog, op: Op, c: Config): (r: Config)
    requires OpFits(p, op, c.mem) && RegsOk(p, c.regs)
    ensures RegsOk(p, r.regs)
    ensures |r.mem.delta| == |c.mem.delta| && |r.mem.z| == |c.mem.z| && |r.mem.ssm| == |c.mem.ssm|
  {
    var w := Width(p);
    match op
    case LoadState =>
      c.(regs := c.regs.(state := Pad(LoadLanes(p, c.mem.ssm, p.loadSlot), w)))
    case AdvanceTo(pos) =>
      var t := PadToken(TokenAt(p, c.mem, pos), w);
      var s := Advance(p.math, PadChannel(p.ch, w), c.regs.state, t);
      c.(regs := c.regs.(state := s, out := Output(PadChannel(p.ch, w), s, t)))
    case StoreOut(pos) =>
      c.(mem := c.mem.(delta := c.mem.delta[p.deltaBase + pos := c.regs.out]))
    case LoadGate(pos) =>
      c.(regs := c.regs.(gated := Gate(p.math, c.regs.out, c.mem.z[p.zBase + pos])))
    case StoreGate(pos) =>
      c.(mem := c.mem.(z := c.mem.z[p.zBase + pos := c.regs.gated]))
    case StoreState(slot) =>
      c.(mem := c.mem.(ssm := StoreLanes(p, c.mem.ssm, slot, c.regs.state, Lanes(p))))
  }

  // ---- The program as loops ------------------------------------------------

  ghost predicate Ready(p: Prog, c: Config) {
    FitsMem(p, c.mem) && RegsOk(p, c.regs)
  }

  function Step(p: Prog, pos: int, c: Config): (r: Config)
    requires Ready(p, c) && 0 <= pos < Length(p)
    ensures Ready(p, r)
    ensures |r.mem.delta| == |c.mem.delta| && |r.mem.z| == |c.mem.z| && |r.mem.ssm| == |c.mem.ssm|
  {
    var c1 := Exec(p, StoreOut(pos), Exec(p, AdvanceTo(pos), c));
    if p.hasZ then Exec(p, StoreGate(pos), Exec(p, LoadGate(pos), c1)) else c1
  }

  /** Positions lo..hi, in order. */
  function Steps(p: Prog, lo: int, hi: int, c: Config): (r: Config)
    requires Ready(p, c) && 0 <= lo <= hi <= Length(p)
    ensures Ready(p, r)
    ensures |r.mem.delta| == |c.mem.delta| && |r.mem.z| == |c.mem.z| && |r.mem.ssm| == |c.mem.ssm|
    decreases hi - lo
  {
    if lo == hi then c else Step(p, hi - 1, Steps(p, lo, hi - 1, c))
  }

  /** The first k chunks, each followed by its checkpoint. */
  function Chunks(p: Prog, k: nat, c: Config): (r: Config)
    requires Ready(p, c) && k <= ChunkCount(p)
    ensures Ready(p, r)
    ensures |r.mem.delta| == |c.mem.delta| && |r.mem.z| == |c.mem.z| && |r.mem.ssm| == |c.mem.ssm|
  {
    if k == 0 then c
    else
      var c1 := Steps(p, p.cuts[k-1], p.cuts[k], Chunks(p, k - 1, c));
      if p.store.Blocked? then Exec(p, StoreState(SlotOf(p, k - 1)), c1) else c1
  }

  function Start(p: Prog, m: Mem): (c: Config)
    requires FitsMem(p, m)
    ensures Ready(p, c) && c.mem == m
  {
    var c0 := Config(Regs(Zeros(Width(p)), 0.0, 0.0), m);
    if p.hasInit then Exec(p, LoadState, c0) else c0
  }

  /** The memory a whole program leaves. */
  function Run(p: Prog, m: Mem): (r: Mem)
    requires FitsMem(p, m)
    ensures |r.delta| == |m.delta| && |r.z| == |m.z| && |r.ssm| == |m.ssm|
  {
    var c := Chunks(p, ChunkCount(p), Start(p, m));
    if p.store.Final? then Exec(p, StoreState(p.loadSlot), c).mem else c.mem
  }

  // ---- The kernel ----------------------------------------------------------

  method LoadStateLanes(p: Prog, ssm: array<real>, slot: int) returns (state: seq<real>)
    requires SlotFits(p, slot, ssm.Length)
    ensures state == Pad(LoadLanes(p, ssm[..], slot), Width(p))
  {
    var lanes: seq<real> := [];
    for n := 0 to Lanes(p)
      invariant lanes == LoadLanes(p, ssm[..], slot)[..n]
    {
      lanes := lanes + [ssm[SsmAddr(p, slot, n)]];
    }
    state := Pad(lanes, Width(p));
  }

  method StoreStateLanes(p: Prog, ssm: array<real>, slot: int, state: seq<real>)
    requires SlotFits(p, slot, ssm.Length) && |state| == Width(p)
    modifies ssm
    ensures ssm[..] == StoreLanes(p, old(ssm[..]), slot, state, Lanes(p))
  {
    for n := 0 to Lanes(p)
      invariant ssm[..] == StoreLanes(p, old(ssm[..]), slot, state, n)
    {
      ssm[SsmAddr(p, slot, n)] := state[n];
    }
  }

  /** One position: load, advance, store in place. */
  method ScanToken(p: Prog, pos: int, regs: Regs, delta: array<real>, z: array<real>, ghost ssm: seq<real>)
    returns (r: Regs)
    requires Ready(p, Config(regs, Mem(delta[..], z[..], ssm))) && delta != z
    requires 0 <= pos < Length(p)
    modifies delta, z
    ensures Config(r, Mem(delta[..], z[..], ssm)) == Step(p, pos, Config(regs, old(Mem(delta[..], z[..], ssm))))
  {
    hide Gate, Advance, Output, Pad, PadToken, PadChannel;
    ghost var c := Config(regs, Mem(delta[..], z[..], ssm));
    var uVal, deltaVal := p.u(pos), delta[p.deltaBase + pos];
    r := ScanLanes(p, pos, uVal, deltaVal, regs, c);
    delta[p.deltaBase + pos] := r.out;
    assert delta[..] == c.mem.delta[p.deltaBase + pos := r.out];
    if p.hasZ {
      var zVal := z[p.zBase + pos];
      var gated := GateOutput(p.math, r.out, zVal);
      r := r.(gated := gated);
      z[p.zBase + pos] := r.gated;
      assert z[..] == c.mem.z[p.zBase + pos := r.gated];
    }
  }

  /** The register part of a position: it never looks at the gate input. */
  method ScanLanes(p: Prog, pos: int, uVal: real, deltaVal: real, regs: Regs, ghost c: Config)
    returns (r: Regs)
    requires Ready(p, c) && c.regs == regs && 0 <= pos < Length(p)
    requires uVal == p.u(pos) && deltaVal == c.mem.delta[p.deltaBase + pos]
    ensures c.(regs := r) == Exec(p, AdvanceTo(pos), c)
  {
    hide Pad, Lane, Dot, Softplus;
    var w := Width(p);
    var d := ReadDelta(p.math, p.ch, deltaVal);
    var state, sum := AdvanceLanes(p.math, d, uVal, Pad(p.ch.A, w), regs.state, Pad(p.B(pos), w), Pad(p.C(pos), w));
    if p.ch.D.Some? { sum := sum + p.ch.D.value * uVal; }
    r := Regs(state, sum, regs.gated);
    assert state == Advance(p.math, PadChannel(p.ch, w), regs.state, PadToken(TokenAt(p, c.mem, pos), w));
  }

  /** The step size of a position: the input, shifted and smoothed if asked for. */
  method ReadDelta(m: Math, ch: Channel, input: real) returns (d: real)
    ensures d == EffectiveDelta(m, ch, input)
  {
    d := input;
    if ch.bias.Some? { d := d + ch.bias.value; }
    if ch.softplus && d <= 20.0 { d := m.log(m.exp(d) + 1.0); }
  }

  /** Every lane decays and takes in its share of the input; the sum over lanes is
      taken with C. */
  method AdvanceLanes(m: Math, d: real, u: real, A: seq<real>, x: seq<real>, B: seq<real>, C: seq<real>)
    returns (state: seq<real>, sum: real)
    requires |A| == |x| == |B| == |C|
    ensures |state| == |A| && forall n :: 0 <= n < |A| ==> state[n] == Lane(m, d, A[n], x[n], u, B[n])
    ensures sum == Dot(state, C)
  {
    hide Lane;
    state, sum := [], 0.0;
    var deltaU := d * u;
    for n := 0 to |A|
      invariant |state| == n && forall i :: 0 <= i < n ==> state[i] == Lane(m, d, A[i], x[i], u, B[i])
      invariant sum == Dot(state, C[..n])
    {
      var lane := NextLane(m, d, A[n], x[n], u, B[n], deltaU);
      assert (state + [lane])[..n] == state && C[..n+1][..n] == C[..n];
      state := state + [lane];
      sum := sum + lane * C[n];
    }
    assert C[..|A|] == C;
  }

  method NextLane(m: Math, d: real, a: real, x: real, ghost u: real, b: real, deltaU: real) returns (r: real)
    requires deltaU == d * u
    ensures r == Lane(m, d, a, x, u, b)
  {
    r := m.exp(d * a) * x + deltaU * b;
  }

  method GateOutput(m: Math, out: real, z: real) returns (r: real)
    requires Positive(m)
    ensures r == Gate(m, out, z)
  {
    r := out * z / (1.0 + m.exp(-z));
  }

  /** The inner loop of a chunk. */
  method ScanChunk(p: Prog, tokensProcessed: int, chunkTokens: int, regs: Regs,
                   delta: array<real>, z: array<real>, ghost ssm: seq<real>)
    returns (r: Regs)
    requires Ready(p, Config(regs, Mem(delta[..], z[..], ssm))) && delta != z
    requires 0 <= tokensProcessed && 0 <= chunkTokens && tokensProcessed + chunkTokens <= Length(p)
    modifies delta, z
    ensures Config(r, Mem(delta[..], z[..], ssm))
         == Steps(p, tokensProcessed, tokensProcessed + chunkTokens, Config(regs, old(Mem(delta[..], z[..], ssm))))
  {
    hide Step;
    r := regs;
    ghost var c0 := Config(regs, Mem(delta[..], z[..], ssm));
    for localPos := 0 to chunkTokens
      invariant Config(r, Mem(delta[..], z[..], ssm)) == Steps(p, tokensProcessed, tokensProcessed + localPos, c0)
    {
      ghost var c := Config(r, Mem(delta[..], z[..], ssm));
      var pos := tokensProcessed + localPos;
      r := ScanToken(p, pos, r, delta, z, ssm);
      assert Steps(p, tokensProcessed, pos + 1, c0) == Step(p, pos, c);
    }
  }

  /** The slot the end of a chunk is stored through, from the running position: the
      entry of the block in which the chunk's last token falls, or `last` for the
      last chunk. */
  method StoreSlot(p: Prog, chunk: nat, currentPosition: int, chunkTokens: int) returns (slot: int)
    requires Valid(p) && p.store.Blocked? && chunk < ChunkCount(p)
    requires currentPosition == PositionAt(p, chunk) && chunkTokens == p.cuts[chunk + 1] - p.cuts[chunk]
    ensures slot == SlotOf(p, chunk)
    ensures chunk == ChunkCount(p) - 1 ==> slot == p.store.row[p.store.last]
    ensures chunk < ChunkCount(p) - 1 ==>
      forall block :: LastTokenIn(p, chunk, block) ==> 0 <= block < |p.store.row| && slot == p.store.row[block]
  {
    if chunk == ChunkCount(p) - 1 {
      slot := p.store.row[p.store.last];
    } else {
      var blockIdxDone := (currentPosition + chunkTokens - 1) / p.store.blockSize;
      assert blockIdxDone == BlockOf(p, chunk);
      forall block | LastTokenIn(p, chunk, block) ensures block == blockIdxDone {
        var last := PositionAt(p, chunk + 1) - 1;
        DivUnique(last, p.store.blockSize, block, last - block * p.store.blockSize);
      }
      slot := p.store.row[blockIdxDone];
    }
  }

  /** The kernel body after its scalar set-up, in place on the three tensors. */
  method RunProgram(p: Prog, delta: array<real>, z: array<real>, ssm: array<real>)
    requires Fits(p, delta.Length, z.Length, ssm.Length)
    requires delta != z && delta != ssm && z != ssm
    modifies delta, z, ssm
    ensures Mem(delta[..], z[..], ssm[..]) == Run(p, old(Mem(delta[..], z[..], ssm[..])))
  {
    hide Steps, Step;
    ghost var c0 := Start(p, Mem(delta[..], z[..], ssm[..]));
    var regs := Regs(Zeros(Width(p)), 0.0, 0.0);
    if p.hasInit {
      var s := LoadStateLanes(p, ssm, p.loadSlot);
      regs := regs.(state := s);
    }
    var tokensProcessed := 0;
    var currentPosition := if p.store.Blocked? then p.store.first * p.store.blockSize + p.store.startOffset else 0;
    var nChunks := ChunkCount(p);
    for chunk := 0 to nChunks
      invariant tokensProcessed == p.cuts[chunk]
      invariant p.store.Blocked? ==> currentPosition == PositionAt(p, chunk)
      invariant Config(regs, Mem(delta[..], z[..], ssm[..])) == Chunks(p, chunk, c0)
    {
      var chunkTokens := p.cuts[chunk + 1] - p.cuts[chunk];
      regs := ScanChunk(p, tokensProcessed, chunkTokens, regs, delta, z, ssm[..]);
      tokensProcessed := tokensProcessed + chunkTokens;
      if p.store.Blocked? {
        var storeSlot := StoreSlot(p, chunk, currentPosition, chunkTokens);
        StoreStateLanes(p, ssm, storeSlot, regs.state);
        currentPosition := currentPosition + chunkTokens;
      }
    }
    if p.store.Final? {
      StoreStateLanes(p, ssm, p.loadSlot, regs.state);
    }
  }
}
