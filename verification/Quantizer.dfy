/** Dynamic per-token integer quantisation of a row, over the reals. Rounding is
    any rule that picks a nearest integer. */
module Quantizer {
  import opened Arithmetic

  ghost predicate Nearest(round: real -> int) {
    forall x: real :: -0.5 <= x - round(x) as real <= 0.5
  }

  function Abs(x: real): real { if x < 0.0 then -x else x }
  function Max(x: real, y: real): real { if x < y then y else x }

  function RowMin(row: seq<real>): (r: real)
    requires |row| > 0
    ensures r in row && forall i :: 0 <= i < |row| ==> r <= row[i]
  {
    if |row| == 1 then row[0]
    else
      var m := RowMin(row[..|row|-1]);
      if row[|row|-1] < m then row[|row|-1] else m
  }

  function RowMax(row: seq<real>): (r: real)
    requires |row| > 0
    ensures r in row && forall i :: 0 <= i < |row| ==> row[i] <= r
  {
    if |row| == 1 then row[0]
    else
      var m := RowMax(row[..|row|-1]);
      if m < row[|row|-1] then row[|row|-1] else m
  }

  function QMin(sym: bool, bits: nat): int
    requires bits >= 1
  {
    if sym then -Pow2(bits - 1) else 0
  }

  function QMax(sym: bool, bits: nat): int
    requires bits >= 1
  {
    if sym then Pow2(bits - 1) - 1 else Pow2(bits) - 1
  }

  /** Symmetric quantisation with one bit would divide by zero. */
  predicate BitsOk(sym: bool, bits: nat) { if sym then bits >= 2 else bits >= 1 }

  const SCALE_FLOOR := 0.00001

  function Scale(sym: bool, bits: nat, row: seq<real>): (s: real)
    requires BitsOk(sym, bits) && |row| > 0
    ensures s >= SCALE_FLOOR
  {
    QMaxPositive(sym, bits);
    Max(Range(sym, row) / (QMax(sym, bits) as real), SCALE_FLOOR)
  }

  function ZeroPoint(round: real -> int, sym: bool, bits: nat, row: seq<real>): int
    requires BitsOk(sym, bits) && |row| > 0
  {
    if sym then 0 else -round(RowMin(row) / Scale(sym, bits, row))
  }

  function Clamp(x: int, lo: int, hi: int): int { if x < lo then lo else if x > hi then hi else x }

  function Quantize(round: real -> int, sym: bool, bits: nat, row: seq<real>, i: nat): int
    requires BitsOk(sym, bits) && i < |row|
  {
    Clamp(round(row[i] / Scale(sym, bits, row) + ZeroPoint(round, sym, bits, row) as real),
          QMin(sym, bits), QMax(sym, bits))
  }

  function Dequantize(scale: real, zeroPoint: int, q: int): real {
    scale * ((q - zeroPoint) as real)
  }

  lemma QMaxPositive(sym: bool, bits: nat)
    requires BitsOk(sym, bits)
    ensures QMax(sym, bits) >= 1 && QMin(sym, bits) <= 0
  {}

  function Range(sym: bool, row: seq<real>): real
    requires |row| > 0
  {
    if sym then Max(Abs(RowMin(row)), Abs(RowMax(row))) else RowMax(row) - RowMin(row)
  }

  /** The scale spreads the whole range over the available steps. */
  lemma ScaleCovers(sym: bool, bits: nat, row: seq<real>)
    requires BitsOk(sym, bits) && |row| > 0
    ensures Range(sym, row) <= Scale(sym, bits, row) * (QMax(sym, bits) as real)
  {
    hide QMax, Range;
    QMaxPositive(sym, bits);
    var n := QMax(sym, bits) as real;
    DivTimes(Range(sym, row), n);
    TimesMonotone(Range(sym, row) / n, Scale(sym, bits, row), n);
  }

  /** The codes are the whole signed or unsigned range of `bits` bits. */
  lemma CodeRange(sym: bool, bits: nat)
    requires bits >= 1
    ensures QMax(sym, bits) - QMin(sym, bits) + 1 == Pow2(bits)
    ensures if sym then QMin(sym, bits) == -(QMax(sym, bits) + 1) else QMin(sym, bits) == 0
  {}

  /** For the eight bits it is used with. */
  lemma ByteCodes()
    ensures QMin(true, 8) == -128 && QMax(true, 8) == 127 && QMin(false, 8) == 0 && QMax(false, 8) == 255
  {
    assert Pow2(7) == 128;
  }

  /** The largest magnitude of the row is at most r in symmetric mode, its span
      otherwise. */
  ghost predicate RowWithin(sym: bool, row: seq<real>, r: real) {
    if sym then forall i :: 0 <= i < |row| ==> -r <= row[i] <= r
    else forall i, j :: 0 <= i < |row| && 0 <= j < |row| ==> row[i] - row[j] <= r
  }

  lemma RangeIs(sym: bool, row: seq<real>, r: real)
    requires |row| > 0
    ensures RowWithin(sym, row, r) <==> Range(sym, row) <= r
  {
    var i :| 0 <= i < |row| && row[i] == RowMin(row);
    var j :| 0 <= j < |row| && row[j] == RowMax(row);
  }

  /** The scale is the least one that is no smaller than the floor and spreads the row
      over the codes. */
  lemma ScaleIsLeast(sym: bool, bits: nat, row: seq<real>, s: real)
    requires BitsOk(sym, bits) && |row| > 0
    ensures Scale(sym, bits, row) >= 0.00001 && RowWithin(sym, row, Scale(sym, bits, row) * QMax(sym, bits) as real)
    ensures s >= 0.00001 && RowWithin(sym, row, s * QMax(sym, bits) as real) ==> Scale(sym, bits, row) <= s
  {
    hide QMax, Range, RowWithin;
    QMaxPositive(sym, bits);
    ScaleCovers(sym, bits, row);
    RangeIs(sym, row, Scale(sym, bits, row) * QMax(sym, bits) as real);
    RangeIs(sym, row, s * QMax(sym, bits) as real);
    if RowWithin(sym, row, s * QMax(sym, bits) as real) { DivAtMost(Range(sym, row), s, QMax(sym, bits) as real); }
  }

  lemma DivAtMost(x: real, s: real, n: real)
    requires n > 0.0 && x <= s * n
    ensures x / n <= s
  {
    DivTimes(x, n);
    if x / n > s { StrictTimes(s, x / n, n); }
  }

  lemma DivTimes(x: real, n: real)
    requires n > 0.0
    ensures x / n * n == x
  {}

  lemma TimesMonotone(a: real, b: real, n: real)
    requires a <= b && n > 0.0
    ensures a * n <= b * n
  {}

  lemma DivMonotone(x: real, y: real, s: real)
    requires x <= y && s > 0.0
    ensures x / s <= y / s
  {
    TimesMonotone(x, y, 1.0 / s);
    assert x * (1.0 / s) == x / s && y * (1.0 / s) == y / s;
  }

  lemma DivBounds(x: real, s: real, lo: real, hi: real)
    requires s > 0.0 && s * lo <= x <= s * hi
    ensures lo <= x / s <= hi
  {
    DivMonotone(s * lo, x, s);
    DivMonotone(x, s * hi, s);
    assert s * lo / s == lo && s * hi / s == hi;
  }

  /** Clamping to [lo, hi] costs nothing beyond rounding when the value is within
      half a step of the range. */
  lemma ClampNearest(round: real -> int, v: real, lo: int, hi: int)
    requires Nearest(round) && lo <= hi
    requires lo as real - 0.5 <= v <= hi as real + 0.5
    ensures Abs(v - Clamp(round(v), lo, hi) as real) <= 0.5
  {
    assert -0.5 <= v - round(v) as real <= 0.5;
  }

  /** In scaled units every element lies within half a step of [qmin, qmax]. */
  lemma ScaledInRange(round: real -> int, sym: bool, bits: nat, row: seq<real>, i: nat)
    requires Nearest(round) && BitsOk(sym, bits) && i < |row|
    ensures var v := row[i] / Scale(sym, bits, row) + ZeroPoint(round, sym, bits, row) as real;
      QMin(sym, bits) as real - 0.5 <= v <= QMax(sym, bits) as real + 0.5
  {
    hide Scale, Pow2, Nearest, Range, Abs, RowMin;
    var s, n := Scale(sym, bits, row), QMax(sym, bits) as real;
    ScaleCovers(sym, bits, row);
    WithinRange(row, i);
    if sym {
      SymmetricBounds(row[i], s, n);
    } else {
      AsymmetricBounds(round, row[i], RowMin(row), s, n);
    }
  }

  lemma WithinRange(row: seq<real>, i: nat)
    requires i < |row|
    ensures Abs(row[i]) <= Range(true, row)
    ensures RowMin(row) <= row[i] && row[i] - RowMin(row) <= Range(false, row)
  {}

  lemma SymmetricBounds(x: real, s: real, n: real)
    requires s > 0.0 && Abs(x) <= s * n
    ensures -n <= x / s <= n
  {
    assert s * (-n) == -(s * n);
    DivBounds(x, s, -n, n);
  }

  lemma AsymmetricBounds(round: real -> int, x: real, least: real, s: real, n: real)
    requires Nearest(round) && s > 0.0 && least <= x && x - least <= s * n
    ensures -0.5 <= x / s - round(least / s) as real <= n + 0.5
  {
    var lo := least / s;
    DivTimes(least, s);
    assert s * lo == least && s * (lo + n) == least + s * n;
    DivBounds(x, s, lo, lo + n);
    assert -0.5 <= lo - round(lo) as real <= 0.5;
  }

  /** Every element is recovered to within half a step, despite the clamp. */
  lemma QuantizationError(round: real -> int, sym: bool, bits: nat, row: seq<real>, i: nat)
    requires Nearest(round) && BitsOk(sym, bits) && i < |row|
    ensures QMin(sym, bits) <= Quantize(round, sym, bits, row, i) <= QMax(sym, bits)
    ensures Abs(row[i] - Dequantize(Scale(sym, bits, row), ZeroPoint(round, sym, bits, row), Quantize(round, sym, bits, row, i)))
         <= Scale(sym, bits, row) / 2.0
  {
    hide Scale, ZeroPoint;
    var s, zp, q := Scale(sym, bits, row), ZeroPoint(round, sym, bits, row), Quantize(round, sym, bits, row, i);
    var v := row[i] / s + zp as real;
    QMaxPositive(sym, bits);
    ScaledInRange(round, sym, bits, row, i);
    ClampNearest(round, v, QMin(sym, bits), QMax(sym, bits));
    Rescale(row[i], s, zp, q);
  }

  lemma StepCovers(sym: bool, bits: nat, row: seq<real>, r: real)
    requires BitsOk(sym, bits) && |row| > 0 && RowWithin(sym, row, r)
    ensures QMax(sym, bits) >= 1
    ensures var step := r / QMax(sym, bits) as real; Scale(sym, bits, row) <= if step < 0.00001 then 0.00001 else step
  {
    hide QMax, RowWithin, Range, Scale;
    QMaxPositive(sym, bits);
    var n := QMax(sym, bits) as real;
    var step := r / n;
    var s := if step < 0.00001 then 0.00001 else step;
    DivTimes(r, n);
    TimesMonotone(step, s, n);
    RangeIs(sym, row, r);
    RangeIs(sym, row, s * n);
    ScaleIsLeast(sym, bits, row, s);
  }

  /** The same in the row's own numbers: with r the largest magnitude of the row in
      symmetric mode, or its span, the error is at most half of r / qmax, or half of
      the floor. */
  lemma ErrorInRow(round: real -> int, sym: bool, bits: nat, row: seq<real>, i: nat, r: real)
    requires Nearest(round) && BitsOk(sym, bits) && i < |row|
    requires RowWithin(sym, row, r)
    ensures QMax(sym, bits) >= 1
    ensures var x := Dequantize(Scale(sym, bits, row), ZeroPoint(round, sym, bits, row), Quantize(round, sym, bits, row, i));
      var step := r / QMax(sym, bits) as real;
      Abs(row[i] - x) <= (if step < 0.00001 then 0.00001 else step) / 2.0
  {
    hide QMax, QMin, Quantize, ZeroPoint, Dequantize, Nearest, RowWithin, Scale, Range;
    QMaxPositive(sym, bits);
    QuantizationError(round, sym, bits, row, i);
    StepCovers(sym, bits, row, r);
  }

  lemma Rescale(x: real, s: real, zp: int, q: int)
    requires s > 0.0 && Abs(x / s + zp as real - q as real) <= 0.5
    ensures Abs(x - Dequantize(s, zp, q)) <= s / 2.0
  {
    var e := x / s + zp as real - q as real;
    DivTimes(x, s);
    assert e * s == x / s * s + (zp as real - q as real) * s;
    assert (zp as real - q as real) * s == -Dequantize(s, zp, q);
    TimesMonotone(e, 0.5, s);
    TimesMonotone(-0.5, e, s);
    assert -0.5 * s == -(s / 2.0) && 0.5 * s == s / 2.0;
  }

  /** An element that is zero is recovered exactly, in both modes. */
  lemma ZeroIsExact(round: real -> int, sym: bool, bits: nat, row: seq<real>, i: nat)
    requires Nearest(round) && BitsOk(sym, bits) && i < |row| && row[i] == 0.0
    ensures Dequantize(Scale(sym, bits, row), ZeroPoint(round, sym, bits, row), Quantize(round, sym, bits, row, i)) == 0.0
  {
    hide Scale, Nearest, QMax, QMin;
    var s, zp := Scale(sym, bits, row), ZeroPoint(round, sym, bits, row);
    assert 0.0 / s == 0.0;
    RoundOfInt(round, zp);
    QMaxPositive(sym, bits);
    if !sym { ZeroPointIsCode(round, bits, row); }
  }

  lemma RoundOfInt(round: real -> int, k: int)
    requires Nearest(round)
    ensures round(k as real) == k
  {
    assert -0.5 <= k as real - round(k as real) as real <= 0.5;
  }

  /** Some code of the asymmetric mode stands for zero. */
  ghost predicate ZeroHasCode(round: real -> int, bits: nat, row: seq<real>)
    requires bits >= 1 && |row| > 0
  {
    exists q :: 0 <= q <= QMax(false, bits) && Dequantize(Scale(false, bits, row), ZeroPoint(round, false, bits, row), q) == 0.0
  }

  lemma ZeroCodeIsZeroPoint(round: real -> int, bits: nat, row: seq<real>)
    requires bits >= 1 && |row| > 0
    ensures ZeroHasCode(round, bits, row) <==> 0 <= ZeroPoint(round, false, bits, row) <= QMax(false, bits)
  {
    hide Scale, QMax;
    var s, zp := Scale(false, bits, row), ZeroPoint(round, false, bits, row);
    assert Dequantize(s, zp, zp) == 0.0;
    forall q | Dequantize(s, zp, q) == 0.0 ensures q == zp {
      if q != zp { NonZero(s, (q - zp) as real); }
    }
  }

  /** Ties go to the even neighbour, as `torch.round` has it. */
  ghost predicate HalfToEven(round: real -> int) {
    Nearest(round) && forall x: real :: Abs(x - round(x) as real) == 0.5 ==> round(x) % 2 == 0
  }

  /** For any row, whether or not it holds a zero: zero has a code exactly when the
      least element is at most half a step above zero and less than half a step
      below the range of codes. */
  lemma ZeroHasCodeIff(round: real -> int, bits: nat, row: seq<real>)
    requires HalfToEven(round) && bits >= 1 && |row| > 0
    ensures ZeroHasCode(round, bits, row) <==>
      -(QMax(false, bits) as real + 0.5) * Scale(false, bits, row) < RowMin(row) <= 0.5 * Scale(false, bits, row)
  {
    hide Scale, HalfToEven, QMax, RowMin;
    var s, n := Scale(false, bits, row), QMax(false, bits);
    ZeroCodeIsZeroPoint(round, bits, row);
    OddMax(bits);
    RoundWithin(round, RowMin(row) / s, n);
    Rescaled(RowMin(row), s, 0.5);
    Rescaled(RowMin(row), s, -(n as real + 0.5));
  }

  lemma OddMax(bits: nat)
    requires bits >= 1
    ensures QMax(false, bits) % 2 == 1
  {}

  lemma RoundWithin(round: real -> int, x: real, n: int)
    requires HalfToEven(round) && n % 2 == 1
    ensures -n <= round(x) <= 0 <==> -(n as real + 0.5) < x <= 0.5
  {
    var r := round(x);
    assert -0.5 <= x - r as real <= 0.5;
    assert Abs(x - r as real) == 0.5 ==> r % 2 == 0;
    OddNegated(n);
    Straddle(r, x, n);
  }

  lemma Straddle(r: int, x: real, n: int)
    requires -0.5 <= x - r as real <= 0.5
    requires Abs(x - r as real) == 0.5 ==> r != 1 && r != -n
    ensures -n <= r <= 0 <==> -(n as real + 0.5) < x <= 0.5
  {
    if r >= 1 { assert r as real >= 1.0; }
    if r < -n { assert r as real <= -(n as real) - 1.0; }
  }

  lemma OddNegated(n: int)
    requires n % 2 == 1
    ensures (-n) % 2 == 1
  {}

  lemma Rescaled(x: real, s: real, c: real)
    requires s > 0.0
    ensures x / s <= c <==> x <= c * s
    ensures c < x / s <==> c * s < x
  {
    DivTimes(x, s);
    if x / s <= c { TimesMonotone(x / s, c, s); } else { StrictTimes(c, x / s, s); }
  }

  lemma StrictTimes(a: real, b: real, s: real)
    requires a < b && s > 0.0
    ensures a * s < b * s
  {
    assert (b - a) * s > 0.0;
  }

  lemma NonZero(s: real, d: real)
    requires s > 0.0 && d != 0.0
    ensures s * d != 0.0
  {}

  /** It is one of the codes whenever the row spans zero. */
  lemma ZeroPointIsCode(round: real -> int, bits: nat, row: seq<real>)
    requires Nearest(round) && bits >= 1 && |row| > 0 && RowMin(row) <= 0.0 <= RowMax(row)
    ensures 0 <= ZeroPoint(round, false, bits, row) <= QMax(false, bits)
  {
    hide Scale, Nearest, QMax, RowMin, RowMax;
    var s, n := Scale(false, bits, row), QMax(false, bits);
    ScaleCovers(false, bits, row);
    ZeroPointBounds(RowMin(row), s, n as real);
    RoundBetween(round, RowMin(row) / s, n);
  }

  lemma RoundBetween(round: real -> int, x: real, n: int)
    requires Nearest(round) && -(n as real) <= x <= 0.0
    ensures -n <= round(x) <= 0
  {
    assert -0.5 <= x - round(x) as real <= 0.5;
  }

  lemma ZeroPointBounds(least: real, s: real, n: real)
    requires s > 0.0 && -(s * n) <= least <= 0.0
    ensures -n <= least / s <= 0.0
  {
    assert s * (-n) == -(s * n) && s * 0.0 == 0.0;
    DivBounds(least, s, -n, 0.0);
  }
}
