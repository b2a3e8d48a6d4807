/** Powers of two, and facts about multiplication and division by a variable. */
module Arith {
  function Pow2(n: nat): nat {
    if n == 0 then 1 else 2 * Pow2(n - 1)
  }

  lemma MulMonotone(a: int, b: int, d: int)
    requires a <= b && 0 <= d
    ensures a * d <= b * d
  {
    assert (b - a) * d >= 0;
  }

  /** Floor division by its defining bounds. */
  lemma QuotientBounds(k: int, d: int)
    requires d > 0
    ensures k / d * d <= k < k / d * d + d
  {
    assert k == d * (k / d) + k % d;
  }

  lemma QuotientUnique(k: int, d: int, q: int)
    requires d > 0 && q * d <= k < q * d + d
    ensures k / d == q
  {
    var r := k / d;
    QuotientBounds(k, d);
    if q < r {
      MulMonotone(q + 1, r, d);
    } else if q > r {
      MulMonotone(r + 1, q, d);
    }
  }
}
