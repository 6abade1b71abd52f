/** Facts about products and remainders that the verifier needs spelled out. */
module Arithmetic {
  lemma Grows(a: int, b: int, d: nat)
    requires a <= b
    ensures a * d <= b * d
  {
    assert b * d == a * d + (b - a) * d;
  }

  /** Quotient and remainder are determined by the number. */
  lemma DivisionIs(n: int, d: nat, q: int, r: int)
    requires d > 0 && n == q * d + r && 0 <= r < d
    ensures n / d == q && n % d == r
  {
    var q', r' := n / d, n % d;
    if q > q' { Grows(q' + 1, q, d); }
    if q < q' { Grows(q + 1, q', d); }
  }

  lemma LessOne(n: int, d: nat)
    requires d > 0
    ensures (n - d) % d == n % d
  {
    assert n - d == (n / d - 1) * d + n % d;
    DivisionIs(n - d, d, n / d - 1, n % d);
  }

  lemma QuotientBound(n: int, span: int, d: nat)
    requires d > 0 && n * d <= span
    ensures n <= span / d
  {
    if n > span / d { Grows(span / d + 1, n, d); }
  }
}
