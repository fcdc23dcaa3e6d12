/** Minimum, maximum, and division with variable divisors. */
module Arithmetic {
  function Larger(a: int, b: int): int { if a >= b then a else b }

  function Smaller(a: int, b: int): int { if a <= b then a else b }

  lemma MulOrder(x: int, y: int, d: nat)
    requires x < y
    ensures x * d + d <= y * d
  {
    assert y * d == (x + 1) * d + (y - x - 1) * d;
  }

  lemma Division(a: int, d: int, q: int, r: int)
    requires d >= 1 && a == q * d + r && 0 <= r < d
    ensures a / d == q && a % d == r
  {
    var q' := a / d;
    if q' > q {
      MulOrder(q, q', d);
    } else if q' < q {
      MulOrder(q', q, d);
    }
  }
}
