/** Facts about products and quotients that the solver does not find by itself. */
module Arithmetic {
  lemma Times(a: nat, b: nat, m: nat)
    requires a <= b
    ensures a * m <= b * m
  {
  }

  lemma Multiple(d: int, m: nat)
    ensures d >= 1 ==> d * m >= m
    ensures d <= -1 ==> d * m <= 0 - m
  {
    if d >= 1 { assert d * m == (d - 1) * m + m; }
    if d <= -1 { assert d * m == (d + 1) * m - m; }
  }

  lemma Quotient(q: nat, r: nat, m: nat)
    requires r < m
    ensures (q * m + r) / m == q && (q * m + r) % m == r
  {
    var n := q * m + r;
    var d := n / m - q;
    assert n == n / m * m + n % m;
    assert d * m == n / m * m - q * m;
    Multiple(d, m);
  }
}
