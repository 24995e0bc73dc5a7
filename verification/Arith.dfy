/** Quotients and remainders by numbers that are not literals. */
module Arith {

  lemma AtLeast(n: nat, d: nat)
    requires d >= 1
    ensures n * d >= n
  {
    assert n * d == n * (d - 1) + n;
  }

  /** Quotient and remainder are unique. */
  lemma Unique(n: nat, a: nat, r: nat, b: nat, s: nat)
    requires r < n && s < n && n * a + r == n * b + s
    ensures a == b && r == s
  {
    assert n * (a - b) == n * a - n * b == s - r;
    if a > b {
      AtLeast(n, a - b);
    } else if b > a {
      assert n * (b - a) == r - s;
      AtLeast(n, b - a);
    }
  }

  lemma ModOf(x: nat, n: nat, q: nat, r: nat)
    requires r < n && x == n * q + r
    ensures x % n == r && x / n == q
  {
    assert x == n * (x / n) + x % n;
    Unique(n, x / n, x % n, q, r);
  }
}
