/** Facts about integers that the solver is not given a search for. */
module Arithmetic {

  /** Multiples of `m` are at least `m` apart. */
  lemma NoMultiple(m: int, x: int)
    requires m > 0
    ensures -m < m * x < m ==> x == 0
  {
    assert x >= 1 ==> m * x >= m * 1;
    assert x <= -1 ==> m * x <= m * -1;
  }

  /** Quotient and remainder are what splits a number that way. */
  lemma DivModIs(n: int, m: int, d: int, r: int)
    requires m > 0 && n == m * d + r && 0 <= r < m
    ensures n / m == d && n % m == r
  {
    var e := n / m;
    assert n == m * e + n % m;
    NoMultiple(m, d - e);
    assert m * (d - e) == m * d - m * e;
  }

  lemma Distribute(a: int, b: int, c: int)
    ensures (a - b) * c == a * c - b * c
  {}

  lemma Associates(a: int, b: int, c: int)
    ensures a * b * c == a * (b * c)
  {}

  lemma Commutes(a: int, b: int)
    ensures a * b == b * a
  {}

  lemma Grows(a: int, b: int, c: nat)
    requires a <= b
    ensures a * c <= b * c
  {}
}
