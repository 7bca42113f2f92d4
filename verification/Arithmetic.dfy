/** Multiplication and division facts the solver needs spelled out. */
module Arithmetic {

  lemma DivUnique(x: int, d: int, q: int, r: int)
    requires d > 0 && x == q * d + r && 0 <= r < d
    ensures x / d == q && x % d == r
  {
    var q', r' := x / d, x % d;
    assert q' * d + r' == x;
    if q' < q { Scale(q', q, d); }
    if q < q' { Scale(q, q', d); }
  }

  lemma Scale(a: int, b: int, d: int)
    requires a < b && d > 0
    ensures a * d + d <= b * d
  {
    var k := b - a - 1;
    NonNegative(k, d);
    assert k * d == b * d - a * d - d;
  }

  lemma NonNegative(x: int, y: int)
    requires x >= 0 && y >= 0
    ensures x * y >= 0
  {}

  function Pow2(e: nat): (r: int)
    ensures r >= 1 && (e >= 1 ==> r >= 2)
  {
    if e == 0 then 1 else 2 * Pow2(e - 1)
  }
}
