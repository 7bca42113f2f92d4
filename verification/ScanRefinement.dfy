/** The kernel, in place and padded, computes the plain recurrence. */
module ScanRefinement {
  import opened Arithmetic
  import opened SelectiveScan
  import opened ScanKernel

  /** The inputs of the program, all read before anything is written. */
  function Tokens(p: Prog, m: Mem): (ts: seq<Token>)
    requires FitsMem(p, m)
    ensures |ts| == Length(p) && AllShaped(p.ch, ts)
  {
    seq(Length(p), pos requires 0 <= pos < Length(p) => TokenAt(p, m, pos))
  }

  /** The state the program starts from. */
  function Initial(p: Prog, m: Mem): (s: seq<real>)
    requires FitsMem(p, m)
    ensures |s| == Lanes(p)
  {
    if p.hasInit then LoadLanes(p, m.ssm, p.loadSlot) else Zeros(Lanes(p))
  }

  function OutAt(p: Prog, m: Mem, pos: nat): real
    requires FitsMem(p, m) && pos < Length(p)
  {
    OutputAt(p.math, p.ch, Initial(p, m), Tokens(p, m), pos)
  }

  /** The state of the plain recurrence after the first k positions. */
  function StateAt(p: Prog, m: Mem, k: nat): (s: seq<real>)
    requires FitsMem(p, m) && k <= Length(p)
    ensures |s| == Lanes(p)
  {
    Scan(p.math, p.ch, Initial(p, m), Tokens(p, m)[..k])
  }

  /** What `delta` holds once the first k positions are done: outputs below k,
      inputs still intact from k on, nothing changed elsewhere. */
  ghost predicate DeltaDone(p: Prog, m: Mem, k: nat, delta: seq<real>)
    requires FitsMem(p, m) && k <= Length(p)
  {
    && |delta| == |m.delta|
    && (forall pos :: 0 <= pos < k ==> delta[p.deltaBase + pos] == OutAt(p, m, pos))
    && (forall i :: 0 <= i < |delta| && !(p.deltaBase <= i < p.deltaBase + k) ==> delta[i] == m.delta[i])
  }

  ghost predicate GateDone(p: Prog, m: Mem, k: nat, z: seq<real>)
    requires FitsMem(p, m) && k <= Length(p)
  {
    && |z| == |m.z|
    && (p.hasZ ==>
          && (forall pos :: 0 <= pos < k ==>
                z[p.zBase + pos] == Gate(p.math, OutAt(p, m, pos), m.z[p.zBase + pos]))
          && (forall i :: 0 <= i < |z| && !(p.zBase <= i < p.zBase + k) ==> z[i] == m.z[i]))
    && (!p.hasZ ==> z == m.z)
  }

  /** The registers and tensors after the first k positions of a run from m. */
  ghost predicate Tracks(p: Prog, m: Mem, k: nat, c: Config) {
    && FitsMem(p, m) && k <= Length(p) && Ready(p, c)
    && |c.mem.ssm| == |m.ssm|
    && c.regs.state == Pad(StateAt(p, m, k), Width(p))
    && DeltaDone(p, m, k, c.mem.delta)
    && GateDone(p, m, k, c.mem.z)
  }

  lemma StartTracks(p: Prog, m: Mem)
    requires FitsMem(p, m)
    ensures Tracks(p, m, 0, Start(p, m))
  {
    assert Pad(Zeros(Lanes(p)), Width(p)) == Zeros(Width(p));
  }

  /** Advancing reads the original input of the position: no earlier position
      has overwritten it. */
  lemma AdvanceTracks(p: Prog, m: Mem, k: nat, c: Config)
    requires Tracks(p, m, k, c) && k < Length(p)
    ensures Exec(p, AdvanceTo(k), c).regs.state == Pad(StateAt(p, m, k + 1), Width(p))
    ensures Exec(p, AdvanceTo(k), c).regs.out == OutAt(p, m, k)
    ensures Exec(p, AdvanceTo(k), c).mem == c.mem
  {
    hide Advance, Output, Pad, EffectiveDelta;
    var ts := Tokens(p, m);
    var t := TokenAt(p, c.mem, k);
    assert c.mem.delta[p.deltaBase + k] == m.delta[p.deltaBase + k];
    assert t == ts[k];
    assert ts[..k+1][..k] == ts[..k] && ts[..k+1][k] == t;
    AdvancePad(p.math, p.ch, StateAt(p, m, k), t, Width(p));
    OutputPad(p.ch, StateAt(p, m, k + 1), t, Width(p));
  }

  lemma StepTracks(p: Prog, m: Mem, k: nat, c: Config)
    requires Tracks(p, m, k, c) && k < Length(p)
    ensures Tracks(p, m, k + 1, Step(p, k, c))
    ensures Step(p, k, c).mem.ssm == c.mem.ssm
  {
    hide OutAt, StateAt, Gate, Advance, Output, Pad, PadToken, TokenAt;
    AdvanceTracks(p, m, k, c);
  }

  lemma {:induction false} StepsTrack(p: Prog, m: Mem, lo: nat, hi: nat, c: Config)
    requires lo <= hi && Tracks(p, m, lo, c) && hi <= Length(p)
    ensures Tracks(p, m, hi, Steps(p, lo, hi, c))
    ensures Steps(p, lo, hi, c).mem.ssm == c.mem.ssm
    decreases hi
  {
    hide DeltaDone, GateDone, StateAt, Step;
    if lo < hi {
      StepsTrack(p, m, lo, hi - 1, c);
      StepTracks(p, m, hi - 1, Steps(p, lo, hi - 1, c));
    }
  }

  /** A checkpoint touches neither the registers nor the outputs. */
  lemma StoreTracks(p: Prog, m: Mem, k: nat, c: Config, slot: int)
    requires Tracks(p, m, k, c) && SlotFits(p, slot, |c.mem.ssm|)
    ensures Tracks(p, m, k, Exec(p, StoreState(slot), c))
  {
    hide DeltaDone, GateDone, StateAt, SsmAddr, StoreLanes;
  }

  lemma {:induction false} ChunksTrack(p: Prog, m: Mem, k: nat)
    requires FitsMem(p, m) && k <= ChunkCount(p)
    ensures Tracks(p, m, p.cuts[k], Chunks(p, k, Start(p, m)))
  {
    hide Steps, DeltaDone, GateDone, StateAt, SsmAddr, Exec;
    StartTracks(p, m);
    if k > 0 {
      ChunksTrack(p, m, k - 1);
      var before := Chunks(p, k - 1, Start(p, m));
      StepsTrack(p, m, p.cuts[k-1], p.cuts[k], before);
      if p.store.Blocked? {
        StoreTracks(p, m, p.cuts[k], Steps(p, p.cuts[k-1], p.cuts[k], before), SlotOf(p, k - 1));
      }
    }
  }

  /** In place and padded, the whole run leaves the recurrence's outputs in
      `delta`, the gated outputs in `z`, and every other cell as it was. */
  lemma RunRefinesRecurrence(p: Prog, m: Mem)
    requires FitsMem(p, m)
    ensures DeltaDone(p, m, Length(p), Run(p, m).delta)
    ensures GateDone(p, m, Length(p), Run(p, m).z)
  {
    hide Chunks, DeltaDone, GateDone;
    ChunksTrack(p, m, ChunkCount(p));
  }

  // ---- The states that are stored ------------------------------------------

  /** Slots of one channel do not overlap, and neither do lanes of one slot. */
  ghost predicate SlotsApart(p: Prog) {
    Lanes(p) * p.laneStride <= p.slotStride
  }

  lemma SlotsDoNotCollide(p: Prog, s: int, a: nat, t: int, b: nat)
    requires SlotsApart(p) && p.laneStride >= 1 && a < Lanes(p) && b < Lanes(p)
    requires SsmAddr(p, s, a) == SsmAddr(p, t, b)
    ensures s == t && a == b
  {
    Scale(a, Lanes(p), p.laneStride);
    Scale(b, Lanes(p), p.laneStride);
    Scale(-1, a, p.laneStride);
    Scale(-1, b, p.laneStride);
    if s < t { Scale(s, t, p.slotStride); }
    if t < s { Scale(t, s, p.slotStride); }
    if a < b { Scale(a, b, p.laneStride); }
    if b < a { Scale(b, a, p.laneStride); }
  }

  /** A store changes the lanes of its slot and nothing else. */
  lemma {:induction false} StoreLanesAt(p: Prog, ssm: seq<real>, slot: int, state: seq<real>, k: nat)
    requires SlotFits(p, slot, |ssm|) && k <= Lanes(p) && |state| >= Lanes(p)
    requires SlotsApart(p) && p.laneStride >= 1
    ensures forall n :: 0 <= n < k ==> StoreLanes(p, ssm, slot, state, k)[SsmAddr(p, slot, n)] == state[n]
    ensures forall i :: 0 <= i < |ssm| && (forall n :: 0 <= n < k ==> i != SsmAddr(p, slot, n))
                  ==> StoreLanes(p, ssm, slot, state, k)[i] == ssm[i]
  {
    if k > 0 {
      hide SsmAddr;
      StoreLanesAt(p, ssm, slot, state, k - 1);
      forall n | 0 <= n < k - 1 ensures SsmAddr(p, slot, n) != SsmAddr(p, slot, k - 1) {
        if SsmAddr(p, slot, n) == SsmAddr(p, slot, k - 1) { SlotsDoNotCollide(p, slot, n, slot, k - 1); }
      }
    }
  }

  /** What is stored in a slot is what is loaded from it; other slots keep theirs. */
  lemma StoreThenLoad(p: Prog, ssm: seq<real>, slot: int, state: seq<real>, other: int)
    requires SlotFits(p, slot, |ssm|) && SlotFits(p, other, |ssm|) && |state| >= Lanes(p)
    requires SlotsApart(p) && p.laneStride >= 1
    ensures LoadLanes(p, StoreLanes(p, ssm, slot, state, Lanes(p)), slot) == state[..Lanes(p)]
    ensures other != slot ==>
      LoadLanes(p, StoreLanes(p, ssm, slot, state, Lanes(p)), other) == LoadLanes(p, ssm, other)
  {
    hide SsmAddr, StoreLanes;
    StoreLanesAt(p, ssm, slot, state, Lanes(p));
    if other != slot {
      forall n, k | 0 <= n < Lanes(p) && 0 <= k < Lanes(p) ensures SsmAddr(p, other, n) != SsmAddr(p, slot, k) {
        if SsmAddr(p, other, n) == SsmAddr(p, slot, k) { SlotsDoNotCollide(p, other, n, slot, k); }
      }
    }
  }

  /** No later chunk of the first k stores through the slot of chunk c. */
  ghost predicate LastWriter(p: Prog, c: nat, k: nat)
    requires Valid(p) && p.store.Blocked? && c < k <= ChunkCount(p)
  {
    forall d :: c < d < k ==> SlotOf(p, d) != SlotOf(p, c)
  }

  /** Every checkpoint that is not stored over is the state of the plain
      recurrence at the end of its chunk. */
  lemma {:induction false} CheckpointAfter(p: Prog, m: Mem, c: nat, k: nat)
    requires FitsMem(p, m) && p.store.Blocked? && c < k <= ChunkCount(p)
    requires SlotsApart(p) && LastWriter(p, c, k)
    ensures LoadLanes(p, Chunks(p, k, Start(p, m)).mem.ssm, SlotOf(p, c)) == StateAt(p, m, p.cuts[c + 1])
  {
    hide Steps, StateAt, SsmAddr, StoreLanes, BlockOf;
    var before := Chunks(p, k - 1, Start(p, m));
    ChunksTrack(p, m, k - 1);
    StepsTrack(p, m, p.cuts[k-1], p.cuts[k], before);
    var done := Steps(p, p.cuts[k-1], p.cuts[k], before);
    StoreThenLoad(p, done.mem.ssm, SlotOf(p, k - 1), done.regs.state, SlotOf(p, c));
    if c < k - 1 {
      CheckpointAfter(p, m, c, k - 1);
    }
  }

  lemma Checkpoint(p: Prog, m: Mem, c: nat)
    requires FitsMem(p, m) && p.store.Blocked? && c < ChunkCount(p)
    requires SlotsApart(p) && LastWriter(p, c, ChunkCount(p))
    ensures LoadLanes(p, Run(p, m).ssm, SlotOf(p, c)) == StateAt(p, m, p.cuts[c + 1])
  {
    CheckpointAfter(p, m, c, ChunkCount(p));
  }

  /** Without a block table, the slot that was loaded from ends with the final state. */
  lemma FinalStateStored(p: Prog, m: Mem)
    requires FitsMem(p, m) && p.store.Final? && SlotsApart(p)
    ensures LoadLanes(p, Run(p, m).ssm, p.loadSlot) == StateAt(p, m, Length(p))
  {
    hide Chunks, StateAt, StoreLanes, SsmAddr;
    ChunksTrack(p, m, 1);
    var c := Chunks(p, 1, Start(p, m));
    StoreThenLoad(p, c.mem.ssm, p.loadSlot, c.regs.state, p.loadSlot);
  }
}
