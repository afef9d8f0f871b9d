/** Finite sums of real terms over integer ranges, the algebra the signal proofs rest on. */
module Summation {

  /** The sum of `f(i)` for `lo <= i < hi`; empty ranges sum to zero. */
  function Sum(lo: int, hi: int, f: int -> real): (s: real)
    decreases hi - lo
  {
    if hi <= lo then 0.0 else Sum(lo, hi - 1, f) + f(hi - 1)
  }

  /** The sum of the first `n` values of `s`. */
  function Total(s: seq<real>, n: nat): (sum: real)
    requires n <= |s|
  {
    if n == 0 then 0.0 else Total(s, n - 1) + s[n - 1]
  }

  lemma {:induction false} TotalSame(a: seq<real>, b: seq<real>, n: nat)
    requires n <= |a| && n <= |b| && a[..n] == b[..n]
    ensures Total(a, n) == Total(b, n)
  {
    if n > 0 {
      assert a[n - 1] == a[..n][n - 1] && b[n - 1] == b[..n][n - 1];
      assert a[..n - 1] == a[..n][..n - 1] && b[..n - 1] == b[..n][..n - 1];
      TotalSame(a, b, n - 1);
    }
  }

  /** Row `i` of a two-argument term. */
  function Row(g: (int, int) -> real, i: int): int -> real { j => g(i, j) }

  /** Column `j` of a two-argument term. */
  function Col(g: (int, int) -> real, j: int): int -> real { i => g(i, j) }

  /** The sums of all rows, as a term. */
  function RowSums(lo: int, hi: int, g: (int, int) -> real): int -> real { i => Sum(lo, hi, Row(g, i)) }

  /** The sums of all columns, as a term. */
  function ColSums(lo: int, hi: int, g: (int, int) -> real): int -> real { j => Sum(lo, hi, Col(g, j)) }

  /** The term `a * f + b * g`. */
  function Combine(a: real, f: int -> real, b: real, g: int -> real): int -> real { i => a * f(i) + b * g(i) }

  lemma {:induction false} SumCongruent(lo: int, hi: int, f: int -> real, g: int -> real)
    requires forall i | lo <= i < hi :: f(i) == g(i)
    ensures Sum(lo, hi, f) == Sum(lo, hi, g)
    decreases hi - lo
  {
    if lo < hi { SumCongruent(lo, hi - 1, f, g); }
  }

  lemma {:induction false} SumZero(lo: int, hi: int, f: int -> real)
    requires forall i | lo <= i < hi :: f(i) == 0.0
    ensures Sum(lo, hi, f) == 0.0
    decreases hi - lo
  {
    if lo < hi { SumZero(lo, hi - 1, f); }
  }

  /** `f` is the linear combination `a * g + b * h` on the range. */
  lemma {:induction false} SumLinear(lo: int, hi: int, f: int -> real, a: real, g: int -> real, b: real, h: int -> real)
    requires forall i | lo <= i < hi :: f(i) == a * g(i) + b * h(i)
    ensures Sum(lo, hi, f) == a * Sum(lo, hi, g) + b * Sum(lo, hi, h)
    decreases hi - lo
  {
    if lo < hi { SumLinear(lo, hi - 1, f, a, g, b, h); }
  }

  /** The product, as a term of its own. */
  function Times(a: real, b: real): real { a * b }

  lemma TimesSum(a: real, b: real, c: real)
    ensures Times(a, b + c) == Times(a, b) + Times(a, c) && Times(a, 0.0) == 0.0
  {}

  lemma TimesSwap(a: real, b: real)
    ensures Times(a, b) == Times(b, a)
  {}

  lemma {:induction false} SumTimes(lo: int, hi: int, f: int -> real, a: real, g: int -> real)
    requires forall i | lo <= i < hi :: f(i) == Times(a, g(i))
    ensures Sum(lo, hi, f) == Times(a, Sum(lo, hi, g))
    decreases hi - lo
  {
    if lo < hi {
      SumTimes(lo, hi - 1, f, a, g);
      TimesSum(a, Sum(lo, hi - 1, g), g(hi - 1));
    } else {
      TimesSum(a, 0.0, 0.0);
    }
  }

  lemma {:induction false} SumAdded(lo: int, hi: int, f: int -> real, g: int -> real, h: int -> real)
    requires forall i | lo <= i < hi :: f(i) == g(i) + h(i)
    ensures Sum(lo, hi, f) == Sum(lo, hi, g) + Sum(lo, hi, h)
    decreases hi - lo
  {
    if lo < hi { SumAdded(lo, hi - 1, f, g, h); }
  }

  lemma {:induction false} SumSplit(lo: int, mid: int, hi: int, f: int -> real)
    requires lo <= mid <= hi
    ensures Sum(lo, hi, f) == Sum(lo, mid, f) + Sum(mid, hi, f)
    decreases hi - mid
  {
    if mid < hi { SumSplit(lo, mid, hi - 1, f); }
  }

  /** Moving the window while the terms move with it leaves the sum alone. */
  lemma {:induction false} SumMoved(lo: int, hi: int, lo': int, hi': int, f: int -> real, g: int -> real)
    requires hi - lo == hi' - lo'
    requires forall i | lo' <= i < hi' :: g(i) == f(i + (lo - lo'))
    ensures Sum(lo', hi', g) == Sum(lo, hi, f)
    decreases hi - lo
  {
    if lo < hi { SumMoved(lo, hi - 1, lo', hi' - 1, f, g); }
  }

  /** Summing backwards. */
  lemma {:induction false} SumReversed(lo: int, hi: int, f: int -> real, g: int -> real)
    requires lo <= hi && forall q | 0 <= q < hi - lo :: g(q) == f(hi - 1 - q)
    ensures Sum(0, hi - lo, g) == Sum(lo, hi, f)
    decreases hi - lo
  {
    if lo < hi {
      SumReversed(lo + 1, hi, f, g);
      SumSplit(lo, lo + 1, hi, f);
      assert Sum(lo, lo + 1, f) == Sum(lo, lo, f) + f(lo);
      assert g(hi - lo - 1) == f(lo);
    }
  }

  /** A sum with at most one non-zero term is that term. */
  lemma {:induction false} SumSingle(lo: int, hi: int, k: int, f: int -> real)
    requires lo <= k < hi
    requires forall i | lo <= i < hi && i != k :: f(i) == 0.0
    ensures Sum(lo, hi, f) == f(k)
  {
    SumSplit(lo, k, hi, f);
    SumSplit(k, k + 1, hi, f);
    SumZero(lo, k, f);
    SumZero(k + 1, hi, f);
    assert Sum(k, k + 1, f) == Sum(k, k, f) + f(k);
  }

  /** Exchanging the order of a finite double sum. */
  lemma {:induction false} SumExchange(lo: int, hi: int, lo': int, hi': int, g: (int, int) -> real)
    ensures Sum(lo, hi, RowSums(lo', hi', g)) == Sum(lo', hi', ColSums(lo, hi, g))
    decreases hi - lo
  {
    if hi <= lo {
      SumZero(lo', hi', ColSums(lo, hi, g));
    } else {
      SumExchange(lo, hi - 1, lo', hi', g);
      SumLinear(lo', hi', ColSums(lo, hi, g), 1.0, ColSums(lo, hi - 1, g), 1.0, Row(g, hi - 1));
    }
  }

  /** One full turn of a periodic term: starting the turn at `m` or at 0 is the same. */
  lemma {:induction false} SumCyclic(n: int, m: int, f: int -> real, g: int -> real)
    requires 0 <= m < n
    requires forall t | 0 <= t < m :: g(t) == f(t - m + n)
    requires forall t | m <= t < n :: g(t) == f(t - m)
    ensures Sum(0, n, g) == Sum(0, n, f)
  {
    assert Sum(0, m, g) == Sum(n - m, n, f) by { SumMoved(n - m, n, 0, m, f, g); }
    assert Sum(m, n, g) == Sum(0, n - m, f) by { SumMoved(0, n - m, m, n, f, g); }
    SumSplit(0, m, n, g);
    SumSplit(0, n - m, n, f);
  }
}
