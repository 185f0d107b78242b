/** The few facts about products that the solver should not have to find again. */
module Arithmetic {

  function Min(a: int, b: int): int {
    if a < b then a else b
  }

  lemma OneMore(n: int, x: int)
    ensures (n + 1) * x == n * x + x
  {
  }

  lemma Distribute(a: int, x: int, y: int)
    ensures a * (x + y) == a * x + a * y
  {
  }

  lemma Associate(a: int, b: int, c: int)
    ensures a * (b * c) == (a * b) * c
  {
  }

  lemma Monotone(c: int, x: int, y: int)
    requires c >= 0 && x <= y
    ensures c * x <= c * y
  {
  }

  lemma Cancel(c: int, x: int, y: int)
    requires c > 0 && c * x < c * y
    ensures x < y
  {
    if x >= y { Monotone(c, y, x); }
  }

  lemma Commute(a: int, b: int)
    ensures a * b == b * a
  {
  }

  lemma QuotientBounds(n: int, c: int)
    requires c > 0
    ensures c * (n / c) <= n < c * (n / c) + c
  {
  }

  /** A quotient is determined by its bounds. */
  lemma QuotientByBounds(n: int, c: int, q: int)
    requires c > 0 && c * q <= n < c * q + c
    ensures q == n / c
  {
    var d := n / c;
    assert c * d <= n < c * d + c;
    Distribute(c, d, 1);
    Distribute(c, q, 1);
    Cancel(c, q, d + 1);
    Cancel(c, d, q + 1);
  }
}
