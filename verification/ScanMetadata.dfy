/** Cutting the prefill tokens of a batch into chunks. A chunk never holds
    tokens of two requests, and chunk ends fall on multiples of the chunk size
    in each request's absolute token positions. */
module ScanMetadata {
  import opened Arithmetic

  function Min(a: int, b: int): int { if a < b then a else b }

  function Cdiv(a: int, b: int): int
    requires b > 0
  {
    (a + b - 1) / b
  }

  function Sum(s: seq<int>): int {
    if |s| == 0 then 0 else Sum(s[..|s|-1]) + s[|s|-1]
  }

  lemma {:induction false} SumConcat(a: seq<int>, b: seq<int>)
    ensures Sum(a + b) == Sum(a) + Sum(b)
  {
    if |b| == 0 {
      assert a + b == a;
    } else {
      SumConcat(a, b[..|b|-1]);
      assert (a + b)[..|a + b|-1] == a + b[..|b|-1];
    }
  }

  // ---- What the chunks of a request are ------------------------------------

  /** Chunk lengths of t tokens that start on a chunk boundary. */
  function Full(size: int, t: nat): (r: seq<int>)
    requires size > 0
    decreases t
  {
    if t == 0 then [] else [Min(size, t)] + Full(size, t - Min(size, t))
  }

  /** Chunk lengths of t tokens that start at absolute position `computed`. */
  function Segment(size: int, computed: nat, t: nat): (r: seq<int>)
    requires size > 0
  {
    if computed % size == 0 then Full(size, t)
    else
      var head := Min(Cdiv(computed, size) * size - computed, t);
      if head < 0 then [] else [head] + Full(size, t - head)
  }

  /** A request: tokens already computed, tokens of this step, and the offset of
      a forced chunk end (0 for none). */
  datatype Row = Row(computed: nat, tokens: nat, checkpoint: nat)

  ghost predicate RowOk(r: Row) { r.checkpoint <= r.tokens }

  ghost predicate RowsOk(rows: seq<Row>) { forall i :: 0 <= i < |rows| ==> RowOk(rows[i]) }

  /** The chunks up to the forced end, if there is one. */
  function RowHead(size: int, r: Row): seq<int>
    requires size > 0
  {
    if r.checkpoint == 0 then [] else Segment(size, r.computed, r.checkpoint)
  }

  function RowLens(size: int, r: Row): seq<int>
    requires size > 0 && RowOk(r)
  {
    RowHead(size, r) + Segment(size, r.computed + r.checkpoint, r.tokens - r.checkpoint)
  }

  /** The chunk lengths of the first k requests, one after the other. */
  function Lens(size: int, rows: seq<Row>, k: nat): seq<int>
    requires size > 0 && RowsOk(rows) && k <= |rows|
  {
    if k == 0 then [] else Lens(size, rows, k - 1) + RowLens(size, rows[k-1])
  }

  // ---- Chunk ends are block boundaries --------------------------------------

  lemma CdivGap(computed: nat, size: int)
    requires size > 0 && computed % size != 0
    ensures Cdiv(computed, size) * size - computed == size - computed % size
  {
    var q, r := computed / size, computed % size;
    assert computed + size - 1 == (q + 1) * size + (r - 1);
    DivUnique(computed + size - 1, size, q + 1, r - 1);
    assert (q + 1) * size == q * size + size;
  }

  lemma {:induction false} FullProperties(size: int, t: nat)
    requires size > 0
    ensures Sum(Full(size, t)) == t
    ensures forall c :: 0 <= c < |Full(size, t)| ==> 0 < Full(size, t)[c] <= size
    ensures forall c :: 0 <= c < |Full(size, t)| - 1 ==> Full(size, t)[c] == size
    decreases t
  {
    if t > 0 {
      var h := Min(size, t);
      FullProperties(size, t - h);
      SumConcat([h], Full(size, t - h));
      assert Sum([h]) == Sum([]) + h;
    }
  }

  /** n full chunks hold t tokens when (n - 1) * size < t <= n * size. */
  lemma {:induction false} FullBounds(size: int, t: nat)
    requires size > 0 && t > 0
    ensures |Full(size, t)| > 0
    ensures (|Full(size, t)| - 1) * size < t <= |Full(size, t)| * size
    decreases t
  {
    if t > size {
      FullBounds(size, t - size);
      OneMore(|Full(size, t - size)|, size, t);
    }
  }

  lemma OneMore(n: nat, size: int, t: nat)
    requires (n - 1) * size < t - size <= n * size
    ensures n * size < t <= (n + 1) * size
  {
    assert (n - 1) * size + size == n * size && n * size + size == (n + 1) * size;
  }

  lemma FullCount(size: int, t: nat)
    requires size > 0
    ensures |Full(size, t)| == Cdiv(t, size)
  {
    if t == 0 {
      DivUnique(size - 1, size, 0, size - 1);
    } else {
      FullBounds(size, t);
      var n := |Full(size, t)|;
      assert (n - 1) * size + size == n * size;
      DivUnique(t + size - 1, size, n, t + size - 1 - n * size);
    }
  }

  lemma SegmentSum(size: int, computed: nat, t: nat)
    requires size > 0
    ensures Sum(Segment(size, computed, t)) == t
    ensures forall c :: 0 <= c < |Segment(size, computed, t)| ==> 0 <= Segment(size, computed, t)[c] <= size
    ensures t > 0 ==> forall c :: 0 <= c < |Segment(size, computed, t)| ==> 0 < Segment(size, computed, t)[c]
  {
    if computed % size == 0 {
      FullProperties(size, t);
    } else {
      CdivGap(computed, size);
      var head := Min(size - computed % size, t);
      FullProperties(size, t - head);
      SumConcat([head], Full(size, t - head));
      assert Sum([head]) == Sum([]) + head;
    }
  }

  /** Every chunk of a segment but the last ends on the next block boundary: the
      end of chunk c is absolute position (computed / size + c + 1) * size. */
  lemma {:induction false} SegmentEnds(size: int, computed: nat, t: nat, c: nat)
    requires size > 0 && c < |Segment(size, computed, t)| - 1
    ensures computed + Sum(Segment(size, computed, t)[..c + 1]) == (computed / size + c + 1) * size
  {
    var s := Segment(size, computed, t);
    var q, r := computed / size, computed % size;
    if c == 0 {
      assert s[..1][..0] == [] && Sum(s[..1]) == Sum([]) + s[0];
      FirstChunk(size, computed, t);
      assert (q + 1) * size == q * size + size;
    } else {
      SegmentEnds(size, computed, t, c - 1);
      assert s[..c + 1][..c] == s[..c];
      MiddleChunk(size, computed, t, c);
      assert (q + c + 1) * size == (q + c) * size + size;
    }
  }

  lemma FirstChunk(size: int, computed: nat, t: nat)
    requires size > 0 && |Segment(size, computed, t)| > 1
    ensures Segment(size, computed, t)[0] == size - computed % size
  {
    if computed % size == 0 {
      FullProperties(size, t);
    } else {
      CdivGap(computed, size);
    }
  }

  lemma MiddleChunk(size: int, computed: nat, t: nat, c: nat)
    requires size > 0 && 0 < c < |Segment(size, computed, t)| - 1
    ensures Segment(size, computed, t)[c] == size
  {
    if computed % size == 0 {
      FullProperties(size, t);
    } else {
      CdivGap(computed, size);
      FullProperties(size, t - Min(size - computed % size, t));
    }
  }

  /** A segment with tokens has one chunk per block it touches. */
  lemma SegmentCount(size: int, computed: nat, t: nat)
    requires size > 0 && t > 0
    ensures |Segment(size, computed, t)| == (computed + t - 1) / size - computed / size + 1
  {
    hide Full;
    var s := Segment(size, computed, t);
    var n, q := |s|, computed / size;
    SegmentSum(size, computed, t);
    assert n > 0 && s[..n] == s && Sum(s) == Sum(s[..n-1]) + s[n-1];
    if n > 1 {
      SegmentEnds(size, computed, t, n - 2);
      DivUnique(computed + t - 1, size, q + n - 1, s[n-1] - 1);
    } else {
      assert s[..0] == [];
      OnlyChunk(size, computed, t);
      DivUnique(computed + t - 1, size, q, computed % size + t - 1);
    }
  }

  lemma OnlyChunk(size: int, computed: nat, t: nat)
    requires size > 0 && t > 0 && |Segment(size, computed, t)| == 1
    ensures computed % size + t <= size
  {
    if computed % size == 0 {
      FullBounds(size, t);
    } else {
      CdivGap(computed, size);
      assert Full(size, t - Min(size - computed % size, t)) == [];
    }
  }

  // ---- The builder -----------------------------------------------------------

  /** The chunk starts listed in `cu` are the running sums of `lens`. */
  ghost predicate Starts(cu: seq<int>, lens: seq<int>) {
    |cu| == |lens| && forall i :: 0 <= i < |lens| ==> cu[i] == Sum(lens[..i])
  }

  lemma StartsSnoc(cu: seq<int>, lens: seq<int>, len: int)
    requires Starts(cu, lens)
    ensures Starts(cu + [Sum(lens)], lens + [len]) && Sum(lens + [len]) == Sum(lens) + len
  {
    var l := lens + [len];
    assert l[..|lens|] == lens;
    forall i | 0 <= i < |l| ensures (cu + [Sum(lens)])[i] == Sum(l[..i]) {
      if i < |lens| { assert l[..i] == lens[..i]; }
    }
  }

  /** Full chunks, from a chunk boundary on. */
  method CutFull(size: int, reqIdx: nat, newTokens: nat,
                 cu0: seq<int>, seqIdx0: seq<int>, seqlenPos0: int, ghost lens: seq<int>)
    returns (cu: seq<int>, seqIdx: seq<int>, seqlenPos: int)
    requires size > 0 && Starts(cu0, lens) && seqlenPos0 == Sum(lens)
    ensures Starts(cu, lens + Full(size, newTokens)) && seqlenPos == Sum(lens + Full(size, newTokens))
    ensures |cu| == |lens| + |Full(size, newTokens)|
    ensures seqIdx == seqIdx0 + Repeat(reqIdx, |Full(size, newTokens)|)
  {
    hide Starts, Sum;
    cu, seqIdx, seqlenPos := cu0, seqIdx0, seqlenPos0;
    ghost var all, done := lens + Full(size, newTokens), lens;
    var left := newTokens;
    FullCount(size, left);
    var nChunks := Cdiv(left, size);
    assert seqIdx0 + Repeat(reqIdx, 0) == seqIdx0;
    for chunk := 0 to nChunks
      invariant Starts(cu, done) && seqlenPos == Sum(done)
      invariant 0 <= left && done + Full(size, left) == all && |Full(size, left)| == nChunks - chunk
      invariant seqIdx == seqIdx0 + Repeat(reqIdx, chunk)
    {
      seqIdx := seqIdx + [reqIdx];
      var chunkLen := Min(size, left);
      StartsSnoc(cu, done, chunkLen);
      cu := cu + [seqlenPos];
      assert done + ([chunkLen] + Full(size, left - chunkLen)) == done + [chunkLen] + Full(size, left - chunkLen);
      done := done + [chunkLen];
      seqlenPos := seqlenPos + chunkLen;
      left := left - chunkLen;
      assert Repeat(reqIdx, chunk) + [reqIdx] == Repeat(reqIdx, chunk + 1);
    }
    assert done == all;
    StartsLength(cu, done);
  }

  lemma StartsLength(cu: seq<int>, lens: seq<int>)
    requires Starts(cu, lens)
    ensures |cu| == |lens|
  {}

  /** One segment: an optional first chunk up to the boundary, then full chunks. */
  method CutSegment(size: int, reqIdx: nat, computed: nat, newTokens: nat,
                    cu0: seq<int>, seqIdx0: seq<int>, seqlenPos0: int, ghost lens: seq<int>)
    returns (cu: seq<int>, seqIdx: seq<int>, seqlenPos: int)
    requires size > 0 && Starts(cu0, lens) && seqlenPos0 == Sum(lens)
    ensures Starts(cu, lens + Segment(size, computed, newTokens))
    ensures seqlenPos == Sum(lens + Segment(size, computed, newTokens))
    ensures |cu| == |lens| + |Segment(size, computed, newTokens)|
    ensures seqIdx == seqIdx0 + Repeat(reqIdx, |Segment(size, computed, newTokens)|)
  {
    hide Starts, Sum, Full;
    cu, seqIdx, seqlenPos := cu0, seqIdx0, seqlenPos0;
    ghost var head: seq<int> := [];
    var left := newTokens;
    assert lens + head == lens;
    if computed % size != 0 {
      seqIdx := seqIdx + [reqIdx];
      CdivGap(computed, size);
      var chunkLen := Cdiv(computed, size) * size - computed;
      chunkLen := Min(chunkLen, left);
      StartsSnoc(cu, lens, chunkLen);
      cu := cu + [seqlenPos];
      head := [chunkLen];
      seqlenPos := seqlenPos + chunkLen;
      left := left - chunkLen;
    }
    assert lens + head + Full(size, left) == lens + Segment(size, computed, newTokens);
    assert seqIdx == seqIdx0 + Repeat(reqIdx, |head|);
    cu, seqIdx, seqlenPos := CutFull(size, reqIdx, left, cu, seqIdx, seqlenPos, lens + head);
    assert Repeat(reqIdx, |head|) + Repeat(reqIdx, |Full(size, left)|)
        == Repeat(reqIdx, |Segment(size, computed, newTokens)|);
  }

  /** The request each chunk of the first k requests belongs to. */
  function Owners(size: int, rows: seq<Row>, k: nat): (r: seq<int>)
    requires size > 0 && RowsOk(rows) && k <= |rows|
    ensures |r| == |Lens(size, rows, k)|
  {
    if k == 0 then [] else Owners(size, rows, k - 1) + Repeat(k - 1, |RowLens(size, rows[k-1])|)
  }

  function Repeat(x: int, n: nat): (r: seq<int>)
    ensures |r| == n
  {
    seq(n, i => x)
  }

  /** The chunk that ends on the forced end of request r, or -1. */
  function CheckpointChunk(size: int, rows: seq<Row>, r: nat): int
    requires size > 0 && RowsOk(rows) && r < |rows|
  {
    if rows[r].checkpoint == 0 then -1
    else |Lens(size, rows, r)| + |Segment(size, rows[r].computed, rows[r].checkpoint)| - 1
  }

  method CutRow(size: int, rows: seq<Row>, req: nat, cu0: seq<int>, seqIdx0: seq<int>, seqlenPos0: int)
    returns (cu: seq<int>, seqIdx: seq<int>, seqlenPos: int, checkpoint: int)
    requires size > 0 && RowsOk(rows) && req < |rows|
    requires Starts(cu0, Lens(size, rows, req)) && seqlenPos0 == Sum(Lens(size, rows, req))
    requires seqIdx0 == Owners(size, rows, req)
    ensures Starts(cu, Lens(size, rows, req + 1)) && seqlenPos == Sum(Lens(size, rows, req + 1))
    ensures seqIdx == Owners(size, rows, req + 1)
    ensures checkpoint == CheckpointChunk(size, rows, req)
  {
    hide Segment, Sum, Starts;
    var row := rows[req];
    cu, seqIdx, seqlenPos, checkpoint := cu0, seqIdx0, seqlenPos0, -1;
    ghost var before, head := Lens(size, rows, req), RowHead(size, row);
    ghost var tail := Segment(size, row.computed + row.checkpoint, row.tokens - row.checkpoint);
    RowAlgebra(before, head, tail, seqIdx0, req);
    if row.checkpoint != 0 {
      cu, seqIdx, seqlenPos := CutSegment(size, req, row.computed, row.checkpoint, cu, seqIdx, seqlenPos, before);
      checkpoint := |cu| - 1;
    }
    cu, seqIdx, seqlenPos := CutSegment(size, req, row.computed + row.checkpoint, row.tokens - row.checkpoint,
                                        cu, seqIdx, seqlenPos, before + head);
  }

  lemma RowAlgebra(before: seq<int>, head: seq<int>, tail: seq<int>, owners: seq<int>, x: int)
    ensures before + head + tail == before + (head + tail)
    ensures head == [] ==> before + head == before && owners + Repeat(x, |head|) == owners
    ensures owners + Repeat(x, |head|) + Repeat(x, |tail|) == owners + Repeat(x, |head + tail|)
  {}

  /** Chunk boundaries are the running sums of all chunk lengths, and each row
      names its last chunk. */
  ghost predicate IsBuilt(size: int, rows: seq<Row>, cu: seq<int>, lastChunk: seq<int>) {
    && size > 0 && RowsOk(rows) && |lastChunk| == |rows|
    && |cu| == |Lens(size, rows, |rows|)| + 1
    && (forall i :: 0 <= i < |cu| ==> cu[i] == Sum(Lens(size, rows, |rows|)[..i]))
    && (forall r :: 0 <= r < |rows| ==> lastChunk[r] == |Lens(size, rows, r + 1)| - 1)
  }

  /** The chunks of a row hold at most `size` tokens and add up to the row; only a
      checkpoint at the very end of an unaligned row makes an empty one. */
  lemma RowSum(size: int, r: Row)
    requires size > 0 && RowOk(r)
    ensures Sum(RowLens(size, r)) == r.tokens
    ensures forall c :: 0 <= c < |RowLens(size, r)| ==> 0 <= RowLens(size, r)[c] <= size
    ensures r.checkpoint < r.tokens ==> forall c :: 0 <= c < |RowLens(size, r)| ==> 0 < RowLens(size, r)[c]
  {
    hide Segment;
    if r.checkpoint > 0 { SegmentSum(size, r.computed, r.checkpoint); }
    SegmentSum(size, r.computed + r.checkpoint, r.tokens - r.checkpoint);
    SumConcat(RowHead(size, r), Segment(size, r.computed + r.checkpoint, r.tokens - r.checkpoint));
  }

  lemma {:induction false} LensBounded(size: int, rows: seq<Row>, k: nat)
    requires size > 0 && RowsOk(rows) && k <= |rows|
    ensures forall c :: 0 <= c < |Lens(size, rows, k)| ==> 0 <= Lens(size, rows, k)[c] <= size
  {
    hide RowLens;
    if k > 0 {
      LensBounded(size, rows, k - 1);
      RowSum(size, rows[k-1]);
    }
  }

  lemma {:induction false} PrefixSumsGrow(s: seq<int>, i: nat, j: nat)
    requires i <= j <= |s| && forall c :: 0 <= c < |s| ==> s[c] >= 0
    ensures Sum(s[..i]) <= Sum(s[..j])
    decreases j
  {
    if i < j {
      PrefixSumsGrow(s, i, j - 1);
      assert s[..j][..j-1] == s[..j-1];
    }
  }

  // ---- What the lists say about the tokens of the batch --------------------------------

  /** The tokens of the first k requests: where request k begins in the batch. */
  ghost function TokensBefore(rows: seq<Row>, k: nat): nat
    requires k <= |rows|
  {
    if k == 0 then 0 else TokensBefore(rows, k - 1) + rows[k-1].tokens
  }

  /** Chunk c holds tokens of the request it names and of no other. */
  ghost predicate WithinOwner(rows: seq<Row>, cu: seq<int>, seqIdx: seq<int>, c: nat)
    requires c < |seqIdx| && |cu| == |seqIdx| + 1
  {
    && 0 <= seqIdx[c] < |rows|
    && TokensBefore(rows, seqIdx[c]) <= cu[c] <= cu[c+1] <= TokensBefore(rows, seqIdx[c] + 1)
  }

  /** The last chunk of request r ends where its tokens do, and its checkpoint chunk,
      if it forces an end, ends exactly there. */
  ghost predicate EndsMarked(rows: seq<Row>, cu: seq<int>, seqIdx: seq<int>, lastChunk: seq<int>, checkpointChunk: seq<int>, r: nat)
    requires r < |rows| == |lastChunk| == |checkpointChunk| && |cu| == |seqIdx| + 1
  {
    && -1 <= lastChunk[r] < |seqIdx| && cu[lastChunk[r] + 1] == TokensBefore(rows, r + 1)
    && (rows[r].checkpoint == 0 ==> checkpointChunk[r] == -1)
    && (rows[r].checkpoint > 0 ==>
          && 0 <= checkpointChunk[r] < |seqIdx| && seqIdx[checkpointChunk[r]] == r
          && cu[checkpointChunk[r] + 1] == TokensBefore(rows, r) + rows[r].checkpoint)
  }

  lemma {:induction false} LensSum(size: int, rows: seq<Row>, k: nat)
    requires size > 0 && RowsOk(rows) && k <= |rows|
    ensures Sum(Lens(size, rows, k)) == TokensBefore(rows, k)
  {
    hide RowLens;
    if k > 0 {
      LensSum(size, rows, k - 1);
      RowSum(size, rows[k-1]);
      SumConcat(Lens(size, rows, k - 1), RowLens(size, rows[k-1]));
    }
  }

  lemma {:induction false} LensPrefix(size: int, rows: seq<Row>, j: nat, k: nat)
    requires size > 0 && RowsOk(rows) && j <= k <= |rows|
    ensures |Lens(size, rows, j)| <= |Lens(size, rows, k)|
    ensures Lens(size, rows, k)[..|Lens(size, rows, j)|] == Lens(size, rows, j)
    decreases k
  {
    hide RowLens;
    if j < k {
      LensPrefix(size, rows, j, k - 1);
    } else {
      var s := Lens(size, rows, k);
      assert s[..|s|] == s;
    }
  }

  lemma {:induction false} OwnerRange(size: int, rows: seq<Row>, k: nat, c: nat)
    requires size > 0 && RowsOk(rows) && k <= |rows| && c < |Lens(size, rows, k)|
    ensures 0 <= Owners(size, rows, k)[c] < k
    ensures |Lens(size, rows, Owners(size, rows, k)[c])| <= c < |Lens(size, rows, Owners(size, rows, k)[c] + 1)|
  {
    hide RowLens;
    if c < |Lens(size, rows, k - 1)| { OwnerRange(size, rows, k - 1, c); }
  }

  /** And conversely: the chunks of request r name it. */
  lemma {:induction false} OwnerOf(size: int, rows: seq<Row>, k: nat, r: nat, c: nat)
    requires size > 0 && RowsOk(rows) && r < k <= |rows| && |Lens(size, rows, r)| <= c < |Lens(size, rows, r + 1)|
    ensures c < |Lens(size, rows, k)| && Owners(size, rows, k)[c] == r
  {
    hide RowLens;
    if r < k - 1 { OwnerOf(size, rows, k - 1, r, c); }
  }

  /** Where request k begins and the chunks before it end. */
  lemma RowBoundary(size: int, rows: seq<Row>, k: nat)
    requires size > 0 && RowsOk(rows) && k <= |rows|
    ensures |Lens(size, rows, k)| <= |Lens(size, rows, |rows|)|
    ensures Sum(Lens(size, rows, |rows|)[..|Lens(size, rows, k)|]) == TokensBefore(rows, k)
  {
    LensPrefix(size, rows, k, |rows|);
    LensSum(size, rows, k);
    assert Lens(size, rows, |rows|)[..|Lens(size, rows, k)|] == Lens(size, rows, k);
  }

  lemma ChunksWithinOwners(size: int, rows: seq<Row>, cu: seq<int>, seqIdx: seq<int>, lastChunk: seq<int>, c: nat)
    requires IsBuilt(size, rows, cu, lastChunk) && seqIdx == Owners(size, rows, |rows|) && c < |seqIdx|
    ensures WithinOwner(rows, cu, seqIdx, c)
  {
    hide Lens, Owners, Sum, TokensBefore;
    var lens := Lens(size, rows, |rows|);
    OwnerRange(size, rows, |rows|, c);
    var r := seqIdx[c];
    RowBoundary(size, rows, r);
    RowBoundary(size, rows, r + 1);
    LensBounded(size, rows, |rows|);
    PrefixSumsGrow(lens, |Lens(size, rows, r)|, c);
    PrefixSumsGrow(lens, c, c + 1);
    PrefixSumsGrow(lens, c + 1, |Lens(size, rows, r + 1)|);
  }

  /** The chunks up to the checkpoint chunk hold the tokens up to the forced end. */
  lemma CheckpointEnds(size: int, rows: seq<Row>, r: nat)
    requires size > 0 && RowsOk(rows) && r < |rows| && rows[r].checkpoint > 0
    ensures |Lens(size, rows, r)| <= CheckpointChunk(size, rows, r) < |Lens(size, rows, r + 1)| <= |Lens(size, rows, |rows|)|
    ensures Sum(Lens(size, rows, |rows|)[..CheckpointChunk(size, rows, r) + 1]) == TokensBefore(rows, r) + rows[r].checkpoint
  {
    hide Segment, TokensBefore;
    var before, head := Lens(size, rows, r), Segment(size, rows[r].computed, rows[r].checkpoint);
    SegmentSum(size, rows[r].computed, rows[r].checkpoint);
    assert head != [];
    LensSum(size, rows, r);
    LensPrefix(size, rows, r + 1, |rows|);
    SumConcat(before, head);
    assert before + head <= Lens(size, rows, r + 1);
    assert Lens(size, rows, |rows|)[..|before + head|] == before + head;
  }

  lemma ChunksMarked(size: int, rows: seq<Row>, cu: seq<int>, seqIdx: seq<int>, lastChunk: seq<int>, checkpointChunk: seq<int>, r: nat)
    requires IsBuilt(size, rows, cu, lastChunk) && seqIdx == Owners(size, rows, |rows|) && r < |rows| == |checkpointChunk|
    requires checkpointChunk[r] == CheckpointChunk(size, rows, r)
    ensures EndsMarked(rows, cu, seqIdx, lastChunk, checkpointChunk, r)
  {
    hide Lens, Owners, Sum, TokensBefore;
    RowBoundary(size, rows, r + 1);
    if rows[r].checkpoint > 0 {
      CheckpointEnds(size, rows, r);
      OwnerOf(size, rows, |rows|, r, checkpointChunk[r]);
    }
  }

  /** `_compute_chunk_metadata`: chunk starts (closed by the total), the request
      of each chunk, and each request's last and checkpoint chunk. */
  method ComputeChunkMetadata(size: int, rows: seq<Row>)
    returns (cu: seq<int>, seqIdx: seq<int>, lastChunk: seq<int>, checkpointChunk: seq<int>)
    requires size > 0 && RowsOk(rows)
    ensures IsBuilt(size, rows, cu, lastChunk)
    ensures seqIdx == Owners(size, rows, |rows|)
    ensures |checkpointChunk| == |rows|
    ensures forall r :: 0 <= r < |rows| ==> checkpointChunk[r] == CheckpointChunk(size, rows, r)
    ensures |cu| == |seqIdx| + 1 && forall c :: 0 <= c < |seqIdx| ==> WithinOwner(rows, cu, seqIdx, c)
    ensures forall r :: 0 <= r < |rows| ==> EndsMarked(rows, cu, seqIdx, lastChunk, checkpointChunk, r)
  {
    hide RowLens, CheckpointChunk, WithinOwner, EndsMarked;
    cu, seqIdx, lastChunk, checkpointChunk := [], [], [], [];
    var seqlenPos := 0;
    for req := 0 to |rows|
      invariant Starts(cu, Lens(size, rows, req)) && seqlenPos == Sum(Lens(size, rows, req))
      invariant seqIdx == Owners(size, rows, req)
      invariant |lastChunk| == |checkpointChunk| == req
      invariant forall r :: 0 <= r < req ==> lastChunk[r] == |Lens(size, rows, r + 1)| - 1
      invariant forall r :: 0 <= r < req ==> checkpointChunk[r] == CheckpointChunk(size, rows, r)
    {
      var checkpoint;
      cu, seqIdx, seqlenPos, checkpoint := CutRow(size, rows, req, cu, seqIdx, seqlenPos);
      lastChunk := lastChunk + [|cu| - 1];
      checkpointChunk := checkpointChunk + [checkpoint];
    }
    ghost var lens := Lens(size, rows, |rows|);
    assert lens[..|lens|] == lens;
    cu := cu + [seqlenPos];
    forall c | 0 <= c < |seqIdx| ensures WithinOwner(rows, cu, seqIdx, c) {
      ChunksWithinOwners(size, rows, cu, seqIdx, lastChunk, c);
    }
    forall r | 0 <= r < |rows| ensures EndsMarked(rows, cu, seqIdx, lastChunk, checkpointChunk, r) {
      ChunksMarked(size, rows, cu, seqIdx, lastChunk, checkpointChunk, r);
    }
  }
}
