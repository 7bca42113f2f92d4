/** From the arguments of a launch to the program of one (batch row, channel):
    base addresses, slots, and the chunk cuts of the row. */
module ScanLaunch {
  import opened Wrappers
  import opened SelectiveScan
  import opened ScanKernel
  import opened ScanMetadata

  /** Strides of a tensor whose last dimension is contiguous. Packed (varlen)
      tensors use the token stride as batch stride. */
  datatype View = View(batchStride: int, rowStride: int)

  datatype Cache =
    | PerBatch
    | Indexed(indices: seq<int>)
    | Blocks(table: seq<seq<int>>, initialStateIdx: seq<int>, first: seq<int>, last: seq<int>,
             cuChunk: seq<int>, lastChunk: seq<int>, blockSize: int)

  /** Read-only tensors are flat memories; `queryStart` is given for packed input. */
  datatype Launch = Launch(
    math: Math,
    u: int -> real, A: int -> real, B: int -> real, C: int -> real,
    D: Option<int -> real>, bias: Option<int -> real>, softplus: bool, hasZ: bool,
    uView: View, deltaView: View, bView: View, cView: View, zView: View,
    aRow: int, aLane: int, bLane: int, cLane: int,
    ssmSlot: int, ssmDim: int, ssmLane: int,
    batch: nat, dim: nat, seqlen: nat, dstate: nat, ratio: int,
    queryStart: Option<seq<int>>,
    hasInitialState: Option<seq<bool>>,
    cache: Cache, nullBlock: int)

  function FirstChunkIdx(k: Cache, b: nat): int
    requires k.Blocks? && b < |k.lastChunk|
  {
    if b == 0 then 0 else k.lastChunk[b-1] + 1
  }

  /** What the metadata tensors must hold for the loads to be in bounds. */
  ghost predicate LaunchOk(l: Launch) {
    && l.ratio > 0 && l.ssmLane >= 1 && Positive(l.math)
    && (l.queryStart.Some? ==>
          && |l.queryStart.value| == l.batch + 1
          && forall b :: 0 <= b < l.batch ==> l.queryStart.value[b] <= l.queryStart.value[b+1])
    && (l.hasInitialState.Some? ==> |l.hasInitialState.value| == l.batch)
    && (l.cache.Indexed? ==> |l.cache.indices| == l.batch)
    && (l.cache.Blocks? ==> BlocksOk(l.cache, l.batch))
  }

  ghost predicate BlocksOk(k: Cache, batch: nat)
    requires k.Blocks?
  {
    && k.blockSize > 0
    && |k.table| == |k.initialStateIdx| == |k.first| == |k.last| == |k.lastChunk| == batch
    && (forall b :: 0 <= b < batch ==> 0 <= k.initialStateIdx[b] < |k.table[b]|)
    && (forall b :: 0 <= b < batch ==> 0 <= FirstChunkIdx(k, b) <= k.lastChunk[b] + 1 < |k.cuChunk|)
    && (forall i, j :: 0 <= i <= j < |k.cuChunk| ==> k.cuChunk[i] <= k.cuChunk[j])
  }

  function SeqStart(l: Launch, b: nat): int
    requires LaunchOk(l) && b < l.batch
  {
    if l.queryStart.Some? then l.queryStart.value[b] else 0
  }

  function SeqLen(l: Launch, b: nat): (r: int)
    requires LaunchOk(l) && b < l.batch
    ensures l.queryStart.Some? ==> l.queryStart.value[b] + r == l.queryStart.value[b+1]
    ensures l.queryStart.None? ==> r == l.seqlen
  {
    if l.queryStart.Some? then l.queryStart.value[b+1] - l.queryStart.value[b] else l.seqlen
  }

  function Base(l: Launch, v: View, b: nat, row: int): int
    requires LaunchOk(l) && b < l.batch
  {
    row * v.rowStride + (if l.queryStart.Some? then SeqStart(l, b) else b) * v.batchStride
  }

  function LoadSlot(l: Launch, b: nat): int
    requires LaunchOk(l) && b < l.batch
  {
    match l.cache
    case PerBatch => b
    case Indexed(indices) => indices[b]
    case Blocks(table, initialStateIdx, _, _, _, _, _) => table[b][initialStateIdx[b]]
  }

  /** Rows whose slot is the null block are not processed. */
  predicate Skipped(l: Launch, b: nat)
    requires LaunchOk(l) && b < l.batch
  {
    !l.cache.PerBatch? && LoadSlot(l, b) == l.nullBlock
  }

  function RowChunks(k: Cache, b: nat): (n: nat)
    requires k.Blocks? && b < |k.lastChunk| && FirstChunkIdx(k, b) <= k.lastChunk[b] + 1
  {
    k.lastChunk[b] - FirstChunkIdx(k, b) + 1
  }

  function RowCuts(l: Launch, b: nat): (cuts: seq<int>)
    requires LaunchOk(l) && b < l.batch
    ensures |cuts| == (if l.cache.Blocks? then RowChunks(l.cache, b) else 1) + 1
  {
    if l.cache.Blocks? then
      var k := l.cache;
      var f := FirstChunkIdx(k, b);
      seq(RowChunks(k, b) + 1, i requires 0 <= i <= RowChunks(k, b) => k.cuChunk[f + i] - k.cuChunk[f])
    else [0, SeqLen(l, b)]
  }

  function RowStore(l: Launch, b: nat): Store
    requires LaunchOk(l) && b < l.batch
  {
    if l.cache.Blocks? then
      var k := l.cache;
      var cuts := RowCuts(l, b);
      var offset := if RowChunks(k, b) > 1 && cuts[1] - cuts[0] < k.blockSize then k.blockSize - (cuts[1] - cuts[0]) else 0;
      Blocked(k.table[b], k.first[b], k.last[b], k.blockSize, offset)
    else Final
  }

  /** The program of batch row b and channel d. */
  function Resolve(l: Launch, b: nat, d: nat): (p: Prog)
    requires LaunchOk(l) && b < l.batch && d < l.dim
    ensures Lanes(p) == l.dstate
  {
    var group := d / l.ratio;
    var uBase, bBase, cBase := Base(l, l.uView, b, d), Base(l, l.bView, b, group), Base(l, l.cView, b, group);
    Prog(
      l.math,
      Channel(seq(l.dstate, n => l.A(d * l.aRow + n * l.aLane)),
              if l.D.Some? then Some(l.D.value(d)) else None,
              if l.bias.Some? then Some(l.bias.value(d)) else None,
              l.softplus),
      (pos: int) => l.u(uBase + pos),
      (pos: int) => seq(l.dstate, n => l.B(bBase + n * l.bLane + pos)),
      (pos: int) => seq(l.dstate, n => l.C(cBase + n * l.cLane + pos)),
      Base(l, l.deltaView, b, d), Base(l, l.zView, b, d), l.hasZ,
      d * l.ssmDim, l.ssmSlot, l.ssmLane,
      LoadSlot(l, b), l.hasInitialState.Some? && l.hasInitialState.value[b],
      RowCuts(l, b),
      RowStore(l, b))
  }

  // ---- Launches whose metadata the builder made -----------------------------

  /** The chunk metadata is what the builder makes of `rows`. */
  ghost predicate Built(k: Cache, rows: seq<Row>)
    requires k.Blocks?
  {
    IsBuilt(k.blockSize, rows, k.cuChunk, k.lastChunk)
  }

  /** The cuts of a row are the running sums of that row's own chunk lengths. */
  lemma BuiltCuts(l: Launch, rows: seq<Row>, b: nat, i: nat)
    requires LaunchOk(l) && l.cache.Blocks? && Built(l.cache, rows) && b < l.batch == |rows|
    requires i <= |RowLens(l.cache.blockSize, rows[b])|
    ensures RowChunks(l.cache, b) == |RowLens(l.cache.blockSize, rows[b])|
    ensures RowCuts(l, b)[i] == Sum(RowLens(l.cache.blockSize, rows[b])[..i])
  {
    hide RowLens, Sum, BlocksOk;
    var k, size := l.cache, l.cache.blockSize;
    var all, own := Lens(size, rows, |rows|), RowLens(size, rows[b]);
    var f := |Lens(size, rows, b)|;
    LensPrefix(size, rows, b, |rows|);
    LensPrefix(size, rows, b + 1, |rows|);
    assert Lens(size, rows, b + 1) == Lens(size, rows, b) + own;
    assert FirstChunkIdx(k, b) == f;
    assert all[..f + i] == all[..f] + own[..i] by {
      assert all[..f + |own|] == Lens(size, rows, b) + own;
      assert all[..f + i] == all[..f + |own|][..f + i];
    }
    SumConcat(all[..f], own[..i]);
  }

  /** The builder's metadata keeps every chunk access in bounds. */
  lemma BuiltInBounds(k: Cache, rows: seq<Row>)
    requires k.Blocks? && Built(k, rows)
    requires |k.table| == |k.initialStateIdx| == |k.first| == |k.last| == |rows|
    requires forall b :: 0 <= b < |rows| ==> 0 <= k.initialStateIdx[b] < |k.table[b]|
    ensures BlocksOk(k, |rows|)
  {
    hide RowLens, Sum, Lens;
    var size, all := k.blockSize, Lens(k.blockSize, rows, |rows|);
    LensBounded(size, rows, |rows|);
    forall i, j | 0 <= i <= j < |k.cuChunk| ensures k.cuChunk[i] <= k.cuChunk[j] { PrefixSumsGrow(all, i, j); }
    forall b | 0 <= b < |rows| ensures 0 <= FirstChunkIdx(k, b) <= k.lastChunk[b] + 1 < |k.cuChunk| {
      LensPrefix(size, rows, b, b + 1);
      LensPrefix(size, rows, b + 1, |rows|);
      if b == 0 { NoRows(size, rows); }
    }
  }

  lemma NoRows(size: int, rows: seq<Row>)
    requires size > 0 && RowsOk(rows)
    ensures Lens(size, rows, 0) == []
  {}

  /** The chunks of a row cover all of its scheduled tokens. */
  lemma BuiltCovers(l: Launch, rows: seq<Row>, b: nat)
    requires LaunchOk(l) && l.cache.Blocks? && Built(l.cache, rows) && b < l.batch == |rows|
    ensures RowCuts(l, b)[|RowCuts(l, b)| - 1] == rows[b].tokens
  {
    hide RowLens, Sum, BlocksOk;
    var own := RowLens(l.cache.blockSize, rows[b]);
    BuiltCuts(l, rows, b, |own|);
    assert own[..|own|] == own;
    RowSum(l.cache.blockSize, rows[b]);
  }
}
