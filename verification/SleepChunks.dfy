/** How an allocation is cut into chunks, in 64-bit unsigned arithmetic. */
module SleepChunks {
  import opened Wrappers
  import opened Arithmetic

  const TWO_TO_64: nat := 0x1_0000_0000_0000_0000
  const MB: nat := 0x10_0000
  const DEFAULT_CHUNK: nat := 256 * MB

  /** The chunk size in bytes, from the number of megabytes the environment
      variable parses to, if it is set and parses. */
  function ChunkSize(env: Option<nat>): (bytes: nat)
    requires env.Some? ==> env.value < TWO_TO_64
    ensures 0 < bytes < TWO_TO_64 && bytes % 0x10_0000 == 0
    ensures env.Some? && 0 < env.value * 0x10_0000 < 0x1_0000_0000_0000_0000 ==> bytes == env.value * 0x10_0000
    ensures env.None? || env.value == 0 || env.value * 0x10_0000 >= 0x1_0000_0000_0000_0000 ==> bytes == 0x1000_0000
  {
    if env.None? then DEFAULT_CHUNK
    else if env.value == 0 then DEFAULT_CHUNK
    else if env.value > (TWO_TO_64 - 1) / MB then DEFAULT_CHUNK
    else env.value * MB
  }

  /** `((x + g - 1) / g) * g` on size_t. */
  function RoundUp(x: nat, g: nat): int
    requires g > 0
  {
    (x + g - 1) % TWO_TO_64 / g * g
  }

  lemma DivBounds(x: nat, g: nat)
    requires g > 0
    ensures 0 <= x / g * g <= x < x / g * g + g
    ensures (x / g * g) % g == 0
  {
    var q, r := x / g, x % g;
    assert x == q * g + r;
    NonNegative(q, g);
    DivUnique(q * g, g, q, 0);
  }

  /** The round-up is the least multiple of the granularity that is large enough,
      exactly when the addition does not wrap; when it wraps the result is 0. */
  lemma RoundUpExact(x: nat, g: nat)
    requires 0 < g < TWO_TO_64 && x < TWO_TO_64
    ensures RoundUp(x, g) % g == 0 && 0 <= RoundUp(x, g) < TWO_TO_64
    ensures x + g - 1 < TWO_TO_64 ==> x <= RoundUp(x, g) < x + g
    ensures x + g - 1 >= TWO_TO_64 ==> RoundUp(x, g) == 0
    ensures x > 0 ==> (x <= RoundUp(x, g) <==> x + g - 1 < TWO_TO_64)
    ensures x == 0 ==> RoundUp(x, g) == 0
  {
    var y := (x + g - 1) % TWO_TO_64;
    DivBounds(y, g);
    if x + g - 1 < TWO_TO_64 {
      assert y == x + g - 1;
      if x == 0 { DivUnique(y, g, 0, y); }
    } else {
      assert y == x + g - 1 - TWO_TO_64;
      DivUnique(y, g, 0, y);
    }
  }

  // ---- The plan -------------------------------------------------------------------------------

  /** How many bytes the first `i` chunks take. */
  function Offset(sizes: seq<nat>, i: nat): nat
    requires i <= |sizes|
  {
    if i == 0 then 0 else Offset(sizes, i - 1) + sizes[i-1]
  }

  /** Positive chunks that add up to `total`. */
  predicate Tiles(sizes: seq<nat>, total: nat) {
    (forall i :: 0 <= i < |sizes| ==> sizes[i] > 0) && Offset(sizes, |sizes|) == total
  }

  lemma {:induction false} OffsetGrows(sizes: seq<nat>, i: nat, j: nat)
    requires i <= j <= |sizes|
    ensures Offset(sizes, i) <= Offset(sizes, j)
    ensures i < j ==> Offset(sizes, i) + sizes[i] <= Offset(sizes, j)
    decreases j
  {
    if i < j { OffsetGrows(sizes, i, j - 1); }
  }

  /** `num_chunks`. */
  function ChunkCount(total: nat, chunk: nat): nat
    requires chunk > 0
  {
    (total + chunk - 1) % TWO_TO_64 / chunk
  }

  /** When nothing wraps the count is the least that reaches `total`; when the
      addition wraps there are no chunks at all. */
  lemma ChunkCountExact(total: nat, chunk: nat)
    requires 0 < chunk < TWO_TO_64 && total < TWO_TO_64
    ensures total + chunk - 1 < TWO_TO_64 && total > 0 ==>
      var n := ChunkCount(total, chunk); n > 0 && (n - 1) * chunk < total <= n * chunk
    ensures total + chunk - 1 >= TWO_TO_64 || total == 0 ==> ChunkCount(total, chunk) == 0
  {
    var y := (total + chunk - 1) % TWO_TO_64;
    DivBounds(y, chunk);
    var n := ChunkCount(total, chunk);
    if total + chunk - 1 < TWO_TO_64 {
      assert y == total + chunk - 1;
      assert (n - 1) * chunk == n * chunk - chunk;
      if total == 0 { DivUnique(y, chunk, 0, y); }
    } else {
      assert y == total + chunk - 1 - TWO_TO_64;
      DivUnique(y, chunk, 0, y);
    }
  }

  /** What the loop stores for chunk `i` of `n`. */
  function PlannedSize(total: nat, chunk: nat, i: nat): int {
    var rest := (total - i * chunk) % TWO_TO_64;
    if rest < chunk then rest else chunk
  }

  lemma PlannedSizeExact(total: nat, chunk: nat, i: nat)
    requires 0 < chunk < TWO_TO_64 && total < TWO_TO_64 && i < ChunkCount(total, chunk)
    ensures 0 < PlannedSize(total, chunk, i) <= chunk
    ensures PlannedSize(total, chunk, i) == if i + 1 < ChunkCount(total, chunk) then chunk else total - i * chunk
  {
    ChunkCountExact(total, chunk);
    Within(i, ChunkCount(total, chunk), chunk, total);
  }

  /** The sizes the loop fills in are whole chunks and what is left for the last;
      chunk `i` starts at `i` times the chunk size; and they tile the allocation
      exactly when the count does not wrap. */
  method PlanChunks(total: nat, chunk: nat) returns (sizes: seq<nat>)
    requires 0 < chunk < TWO_TO_64 && total < TWO_TO_64
    ensures |sizes| == ChunkCount(total, chunk)
    ensures forall i :: 0 <= i < |sizes| ==> Offset(sizes, i) == i * chunk
    ensures forall i :: 0 <= i < |sizes| ==> sizes[i] == if i + 1 < |sizes| then chunk else total - i * chunk
    ensures total > 0 ==> (Tiles(sizes, total) <==> total + chunk - 1 < TWO_TO_64)
    ensures total > 0 && total + chunk - 1 >= TWO_TO_64 ==> sizes == []
  {
    hide ChunkCount, PlannedSize;
    var n := ChunkCount(total, chunk);
    sizes := [];
    var i := 0;
    while i < n
      invariant 0 <= i == |sizes| <= n
      invariant forall j :: 0 <= j < i ==> sizes[j] == PlannedSize(total, chunk, j)
    {
      PlannedSizeExact(total, chunk, i);
      sizes := sizes + [PlannedSize(total, chunk, i)];
      i := i + 1;
    }
    PlanTiles(total, chunk, sizes);
  }

  lemma {:induction false} PlanOffsets(total: nat, chunk: nat, sizes: seq<nat>, i: nat)
    requires 0 < chunk < TWO_TO_64 && total < TWO_TO_64 && |sizes| == ChunkCount(total, chunk) && i <= |sizes|
    requires forall j :: 0 <= j < |sizes| ==> sizes[j] == PlannedSize(total, chunk, j)
    ensures Offset(sizes, i) == if i < |sizes| || i == 0 then i * chunk else total
  {
    hide ChunkCount, PlannedSize;
    if i > 0 {
      PlanOffsets(total, chunk, sizes, i - 1);
      PlannedSizeExact(total, chunk, i - 1);
      assert i * chunk == (i - 1) * chunk + chunk;
    }
  }

  lemma PlanTiles(total: nat, chunk: nat, sizes: seq<nat>)
    requires 0 < chunk < TWO_TO_64 && total < TWO_TO_64 && |sizes| == ChunkCount(total, chunk)
    requires forall j :: 0 <= j < |sizes| ==> sizes[j] == PlannedSize(total, chunk, j)
    ensures forall i :: 0 <= i < |sizes| ==> Offset(sizes, i) == i * chunk
    ensures forall i :: 0 <= i < |sizes| ==> sizes[i] == if i + 1 < |sizes| then chunk else total - i * chunk
    ensures total > 0 ==> (Tiles(sizes, total) <==> total + chunk - 1 < TWO_TO_64)
    ensures total > 0 && total + chunk - 1 >= TWO_TO_64 ==> sizes == []
  {
    hide ChunkCount, PlannedSize, Offset;
    ChunkCountExact(total, chunk);
    forall i | 0 <= i < |sizes|
      ensures Offset(sizes, i) == i * chunk && sizes[i] > 0
      ensures sizes[i] == if i + 1 < |sizes| then chunk else total - i * chunk
    {
      PlanOffsets(total, chunk, sizes, i);
      PlannedSizeExact(total, chunk, i);
    }
    PlanOffsets(total, chunk, sizes, |sizes|);
  }

  lemma Within(i: nat, n: nat, chunk: nat, total: nat)
    requires i < n && chunk > 0 && (n - 1) * chunk < total <= n * chunk && total < TWO_TO_64
    ensures 0 <= total - i * chunk < TWO_TO_64
    ensures i + 1 < n ==> total - i * chunk > chunk
    ensures i + 1 == n ==> 0 < total - i * chunk <= chunk
  {
    if i + 1 < n { Scale(i, n - 1, chunk); }
    NonNegative(i, chunk);
    assert n * chunk == (n - 1) * chunk + chunk;
  }

  /** Every planned chunk is a multiple of the granularity. */
  lemma ChunksAreMultiples(total: nat, chunk: nat, sizes: seq<nat>, g: nat)
    requires g > 0 && total % g == 0 && chunk % g == 0
    requires forall i :: 0 <= i < |sizes| ==> sizes[i] == if i + 1 < |sizes| then chunk else total - i * chunk
    ensures forall i :: 0 <= i < |sizes| ==> sizes[i] % g == 0
  {
    var a, b := total / g, chunk / g;
    assert total == a * g && chunk == b * g;
    forall i | 0 <= i < |sizes| ensures sizes[i] % g == 0 {
      assert i * chunk == (i * b) * g by { assert i * (b * g) == (i * b) * g; }
      assert total - i * chunk == (a - i * b) * g;
      DivUnique(total - i * chunk, g, a - i * b, 0);
    }
  }

  /** The chunk size from the environment can be rounded up to 0, and the count is
      then a division by zero: the largest accepted number of megabytes, on a
      device whose granularity is 2 MB. */
  lemma RoundedChunkCanBeZero()
    ensures ChunkSize(Some(17592186044415)) == 17592186044415 * MB
    ensures RoundUp(ChunkSize(Some(17592186044415)), 2 * MB) == 0
  {}

  /** It is not 0 exactly when the round-up does not wrap. */
  lemma RoundedChunkPositive(env: Option<nat>, g: nat)
    requires (env.Some? ==> env.value < TWO_TO_64) && 0 < g < TWO_TO_64
    ensures RoundUp(ChunkSize(env), g) > 0 <==> ChunkSize(env) + g - 1 < TWO_TO_64
  {
    RoundUpExact(ChunkSize(env), g);
  }

  /** A count of 0 is possible too, with a positive chunk size: one step below the
      largest accepted number of megabytes, for an allocation of 4 MB. */
  lemma ChunksCanBeNone()
    ensures RoundUp(ChunkSize(Some(17592186044414)), 2 * MB) == 17592186044414 * MB
    ensures RoundUp(4 * MB, 2 * MB) == 4 * MB && ChunkCount(4 * MB, 17592186044414 * MB) == 0
  {}

  /** An allocation gets no chunks exactly when the count wraps. */
  lemma NoChunksIff(total: nat, chunk: nat)
    requires 0 < chunk < TWO_TO_64 && 0 < total < TWO_TO_64
    ensures ChunkCount(total, chunk) == 0 <==> total + chunk - 1 >= TWO_TO_64
  {
    ChunkCountExact(total, chunk);
  }
}
