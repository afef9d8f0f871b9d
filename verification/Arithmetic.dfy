/** Integer division facts the verifier does not find by itself. */
module Arithmetic {

  lemma MulAtLeast(d: int, n: int)
    requires 1 <= d && 0 <= n
    ensures n <= d * n
  {}

  lemma MulAtMost(d: int, n: int)
    requires d <= -1 && 0 <= n
    ensures d * n <= -n
  {}

  lemma MulMonotone(a: int, b: int, n: int)
    requires a <= b && 0 <= n
    ensures a * n <= b * n
  {}

  /** Quotient and remainder are determined by the division equation. */
  lemma DivModUnique(x: int, n: int, q: int, r: int)
    requires 0 < n && 0 <= r < n && x == q * n + r
    ensures x / n == q && x % n == r
  {
    var d := x / n - q;
    assert x == (x / n) * n + x % n;
    assert d * n == r - x % n by { assert (x / n) * n == d * n + q * n; }
    if 1 <= d { MulAtLeast(d, n); }
    if d <= -1 { MulAtMost(d, n); }
  }

  /** Adding a multiple of the modulus. */
  lemma ModPlusMultiple(x: int, n: int, k: int)
    requires 0 < n
    ensures (x + k * n) % n == x % n
    ensures (x + k * n) / n == x / n + k
  {
    assert x == (x / n) * n + x % n;
    assert x + k * n == (x / n + k) * n + x % n;
    DivModUnique(x + k * n, n, x / n + k, x % n);
  }

  lemma ModSmall(x: int, n: int)
    requires 0 <= x < n
    ensures x % n == x && x / n == 0
  {}

  /** Remainders may be taken early in a sum. */
  lemma ModAdd(x: int, y: int, n: int)
    requires 0 < n
    ensures (x + y) % n == (x % n + y) % n
    ensures (x + y) % n == (x % n + y % n) % n
  {
    assert x == (x / n) * n + x % n;
    assert y == (y / n) * n + y % n;
    ModPlusMultiple(x % n + y, n, x / n);
    assert x + y == (x % n + y) + (x / n) * n;
    ModPlusMultiple(x % n + y % n, n, y / n);
    assert x % n + y == (x % n + y % n) + (y / n) * n;
  }

  lemma ModAddCases(x: int, y: int, n: int)
    requires 0 < n
    ensures (x + y) % n == x % n + y % n || (x + y) % n == x % n + y % n - n
  {
    var s := x % n + y % n;
    ModAdd(x, y, n);
    if s < n { ModSmall(s, n); } else { DivModUnique(s, n, 1, s - n); }
  }

  lemma RemainderOfRemainder(t: int, m: int, low: int, high: int)
    requires 0 < m && 0 < low && m == high * low
    ensures (t % m) % low == t % low
  {
    var q := t / m;
    assert t == q * m + t % m;
    assert q * m == (q * high) * low;
    ModPlusMultiple(t % m, low, q * high);
  }

  lemma DivPositive(x: int, n: int)
    requires 0 < n <= x
    ensures 0 < x / n
  {}

  lemma DivExact(x: int, n: int)
    requires 0 < n && x % n == 0
    ensures x == (x / n) * n
    ensures 0 < x ==> 0 < x / n
  {}
}
