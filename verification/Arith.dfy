/** The little arithmetic the other modules share. */
module Arith {
  function Ceil(x: real): (r: int)
    ensures r as real - 1.0 < x <= r as real
  {
    -(-x).Floor
  }

  lemma MulMonotone(a: int, b: int, d: int)
    requires a <= b && d > 0
    ensures a * d <= b * d
  {
    assert (b - a) * d == b * d - a * d;
  }

  lemma CancelLess(a: int, b: int, d: int)
    requires d > 0 && a * d < b * d
    ensures a < b
  {
    if a >= b {
      MulMonotone(b, a, d);
    }
  }

  /** The quotient counts the whole steps before `t`. */
  lemma QuotientFits(t: int, d: int)
    requires d > 0
    ensures (t / d) * d <= t < (t / d + 1) * d
  {
    var q, r := t / d, t % d;
    assert t == q * d + r && 0 <= r < d;
  }

  lemma QuotientBounds(k: int, d: int, t: int)
    requires d > 0 && k * d <= t
    ensures k <= t / d
  {
    var q := t / d;
    QuotientFits(t, d);
    CancelLess(k, q + 1, d);
  }
}
