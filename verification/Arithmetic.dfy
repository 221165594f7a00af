/** Products and quotients of integers, one step at a time. */
module Arithmetic {

  lemma {:induction false} ProductAtLeast(d: int, k: int)
    requires d > 0 && k >= 1
    ensures d * k >= d
  {
  }

  lemma {:induction false} ProductNonNegative(d: int, k: int)
    requires d > 0 && k >= 0
    ensures d * k >= 0
  {
  }

  lemma {:induction false} QuotientUnique(n: int, d: int, q: int, r: int)
    requires d > 0 && n == d * q + r && 0 <= r < d
    ensures n / d == q
  {
    var q', r' := n / d, n % d;
    assert n == d * q' + r';
    assert d * (q - q') == r' - r && d * (q' - q) == r - r';
    if q > q' {
      ProductAtLeast(d, q - q');
    } else if q < q' {
      ProductAtLeast(d, q' - q);
    }
  }
}
