/** Complex numbers over the reals and the twiddle factors of a discrete Fourier transform. */
module RootsOfUnity {
  import opened Arithmetic
  import opened Summation

  datatype Complex = Complex(re: real, im: real)

  const ONE := Complex(1.0, 0.0)

  function Mul(a: Complex, b: Complex): (c: Complex) {
    Complex(a.re * b.re - a.im * b.im, a.re * b.im + a.im * b.re)
  }

  function Conj(a: Complex): Complex { Complex(a.re, -a.im) }

  function NormSq(a: Complex): real { a.re * a.re + a.im * a.im }

  function Pow(w: Complex, e: nat): (r: Complex) {
    if e == 0 then ONE else Mul(Pow(w, e - 1), w)
  }

  /** `w` has order exactly `n`: what `exp(-2*pi*i/n)` is to the transform of size `n`. */
  ghost predicate PrimitiveRoot(w: Complex, n: int) {
    0 < n && Pow(w, n) == ONE && forall j | 0 < j < n :: Pow(w, j) != ONE
  }

  /** The power of `w` that stands at exponent `e` in a transform of size `n`. */
  function Twiddle(w: Complex, n: int, e: int): Complex
    requires 0 < n
  {
    Pow(w, e % n)
  }

  lemma MulAssoc(a: Complex, b: Complex, c: Complex)
    ensures Mul(Mul(a, b), c) == Mul(a, Mul(b, c))
  {}

  lemma {:induction false} PowAdd(w: Complex, a: nat, b: nat)
    ensures Pow(w, a + b) == Mul(Pow(w, a), Pow(w, b))
  {
    if b > 0 {
      PowAdd(w, a, b - 1);
      MulAssoc(Pow(w, a), Pow(w, b - 1), w);
    }
  }

  lemma NormMul(a: Complex, b: Complex)
    ensures NormSq(Mul(a, b)) == NormSq(a) * NormSq(b)
  {}

  /** Powers of a number whose modulus is not 1 move away from modulus 1. */
  lemma {:induction false} NormPow(w: Complex, e: nat)
    ensures NormSq(w) == 1.0 ==> NormSq(Pow(w, e)) == 1.0
    ensures NormSq(w) > 1.0 && e > 0 ==> NormSq(Pow(w, e)) > 1.0
    ensures NormSq(w) < 1.0 && e > 0 ==> NormSq(Pow(w, e)) < 1.0
  {
    if e > 0 {
      NormPow(w, e - 1);
      NormMul(Pow(w, e - 1), w);
      var m, v := NormSq(Pow(w, e - 1)), NormSq(w);
      assert m >= 0.0 && v >= 0.0;
      if e == 1 { assert m == 1.0; }
      if v > 1.0 && e > 1 { assert m * v >= v; }
      if v < 1.0 && e > 1 { assert m * v <= v; }
    }
  }

  /** A root of unity lies on the unit circle. */
  lemma UnitModulus(w: Complex, n: int)
    requires PrimitiveRoot(w, n)
    ensures NormSq(w) == 1.0
  {
    NormPow(w, n);
  }

  lemma MulOne(a: Complex)
    ensures Mul(a, ONE) == a
  {}

  lemma PowTurn(w: Complex, n: int, z: nat)
    requires PrimitiveRoot(w, n)
    ensures Pow(w, z + n) == Pow(w, z)
  {
    PowAdd(w, z, n);
    MulOne(Pow(w, z));
  }

  /** Exponents wrap around after a full turn. */
  lemma PowWrap(w: Complex, n: int, x: int, y: int, z: int)
    requires PrimitiveRoot(w, n) && 0 <= x && 0 <= y && 0 <= z
    requires z == x + y || z + n == x + y
    ensures Pow(w, z) == Mul(Pow(w, x), Pow(w, y))
  {
    PowAdd(w, x, y);
    PowTurn(w, n, z);
  }

  lemma TwiddleAdd(w: Complex, n: int, a: int, b: int)
    requires PrimitiveRoot(w, n)
    ensures Twiddle(w, n, a + b) == Mul(Twiddle(w, n, a), Twiddle(w, n, b))
  {
    ModAddCases(a, b, n);
    PowWrap(w, n, a % n, b % n, (a + b) % n);
  }

  lemma TwiddleZero(w: Complex, n: int, k: int)
    requires PrimitiveRoot(w, n)
    ensures Twiddle(w, n, k * n) == ONE
  {
    ModPlusMultiple(0, n, k);
    ModSmall(0, n);
  }

  lemma TwiddleInverse(w: Complex, n: int, a: int, b: int)
    requires PrimitiveRoot(w, n) && a + b == 0
    ensures Mul(Twiddle(w, n, a), Twiddle(w, n, b)) == ONE
  {
    TwiddleAdd(w, n, a, b);
    ModSmall(0, n);
  }

  lemma TwiddleNorm(w: Complex, n: int, e: int)
    requires PrimitiveRoot(w, n)
    ensures NormSq(Twiddle(w, n, e)) == 1.0
  {
    UnitModulus(w, n);
    NormPow(w, e % n);
  }

  /** Negating the exponent conjugates. */
  lemma TwiddleNegate(w: Complex, n: int, e: int, e': int)
    requires PrimitiveRoot(w, n) && e' == -e
    ensures Twiddle(w, n, e') == Conj(Twiddle(w, n, e))
  {
    TwiddleInverse(w, n, e, e');
    TwiddleNorm(w, n, e);
    InverseIsConjugate(Twiddle(w, n, e), Twiddle(w, n, e'));
  }

  lemma InverseIsConjugate(u: Complex, v: Complex)
    requires NormSq(u) == 1.0 && Mul(u, v) == ONE
    ensures v == Conj(u)
  {
    calc {
      v.re;
      (u.re * u.re + u.im * u.im) * v.re;
      u.re * (u.re * v.re - u.im * v.im) + u.im * (u.re * v.im + u.im * v.re);
      u.re;
    }
    calc {
      v.im;
      (u.re * u.re + u.im * u.im) * v.im;
      u.re * (u.re * v.im + u.im * v.re) - u.im * (u.re * v.re - u.im * v.im);
      -u.im;
    }
  }

  // The laws of a table of twiddle factors. Each is a named instance, so that proofs choose
  // which instances they use.

  ghost predicate AddLaw(tw: int -> Complex, a: int, b: int) { tw(a + b) == Mul(tw(a), tw(b)) }

  ghost predicate NegLaw(tw: int -> Complex, e: int) { tw(-e) == Conj(tw(e)) }

  ghost predicate TurnLaw(tw: int -> Complex, n: int, k: int) { tw(k * n) == ONE }

  ghost predicate OrderLaw(tw: int -> Complex, n: int, d: int) requires 0 < n { tw(d) == ONE ==> d % n == 0 }

  /** `tw` is the table of powers of a primitive `n`-th root of unity. */
  ghost predicate Twiddles(tw: int -> Complex, n: int) {
    && 0 < n
    && (forall a, b :: AddLaw(tw, a, b))
    && (forall e :: NegLaw(tw, e))
    && (forall k :: TurnLaw(tw, n, k))
    && (forall d :: OrderLaw(tw, n, d))
  }

  function TwiddleTable(w: Complex, n: int): int -> Complex
    requires 0 < n
  {
    e => Twiddle(w, n, e)
  }

  /** Every primitive root provides such a table. */
  lemma PrimitiveRootTwiddles(w: Complex, n: int)
    requires PrimitiveRoot(w, n)
    ensures Twiddles(TwiddleTable(w, n), n)
  {
    forall a, b ensures AddLaw(TwiddleTable(w, n), a, b) { TableAdd(w, n, a, b); }
    forall e ensures NegLaw(TwiddleTable(w, n), e) { TableNeg(w, n, e); }
    forall k ensures TurnLaw(TwiddleTable(w, n), n, k) { TableTurn(w, n, k); }
    forall d ensures OrderLaw(TwiddleTable(w, n), n, d) { TableOrder(w, n, d); }
  }

  lemma TableAdd(w: Complex, n: int, a: int, b: int)
    requires PrimitiveRoot(w, n)
    ensures AddLaw(TwiddleTable(w, n), a, b)
  {
    var tw := TwiddleTable(w, n);
    calc {
      tw(a + b);
      Twiddle(w, n, a + b);
      { TwiddleAdd(w, n, a, b); }
      Mul(Twiddle(w, n, a), Twiddle(w, n, b));
      { MulSame(Twiddle(w, n, a), Twiddle(w, n, b), tw(a), tw(b)); }
      Mul(tw(a), tw(b));
    }
  }

  lemma MulSame(a: Complex, b: Complex, c: Complex, d: Complex)
    requires a == c && b == d
    ensures Mul(a, b) == Mul(c, d)
  {}

  lemma TableNeg(w: Complex, n: int, e: int)
    requires PrimitiveRoot(w, n)
    ensures NegLaw(TwiddleTable(w, n), e)
  {
    TwiddleNegate(w, n, e, -e);
  }

  lemma TableTurn(w: Complex, n: int, k: int)
    requires PrimitiveRoot(w, n)
    ensures TurnLaw(TwiddleTable(w, n), n, k)
  {
    TwiddleZero(w, n, k);
  }

  lemma TableOrder(w: Complex, n: int, d: int)
    requires PrimitiveRoot(w, n)
    ensures OrderLaw(TwiddleTable(w, n), n, d)
  {}

  function PartRe(tw: int -> Complex, d: int): int -> real { k => tw(d * k).re }

  function PartIm(tw: int -> Complex, d: int): int -> real { k => tw(d * k).im }

  lemma PartStep(tw: int -> Complex, n: int, d: int, k: int)
    requires Twiddles(tw, n)
    ensures PartRe(tw, d)(k + 1) == tw(d).re * PartRe(tw, d)(k) + -tw(d).im * PartIm(tw, d)(k)
    ensures PartIm(tw, d)(k + 1) == tw(d).im * PartRe(tw, d)(k) + tw(d).re * PartIm(tw, d)(k)
  {
    assert d * (k + 1) == d * k + d;
    assert AddLaw(tw, d * k, d);
  }

  lemma PartTurn(tw: int -> Complex, n: int, d: int)
    requires Twiddles(tw, n)
    ensures tw(d * n) == ONE && tw(d * 0) == ONE
  {
    assert TurnLaw(tw, n, d) && TurnLaw(tw, n, 0);
    assert d * 0 == 0 * n;
  }

  lemma PartWhole(tw: int -> Complex, n: int, d: int, k: int)
    requires Twiddles(tw, n) && d % n == 0
    ensures PartRe(tw, d)(k) == 1.0 && PartIm(tw, d)(k) == 0.0
  {
    assert d * k == (d / n * k) * n by { assert d == (d / n) * n; }
    assert TurnLaw(tw, n, d / n * k);
  }

  /** The powers of a non-trivial root of unity cancel over a full turn. */
  lemma Orthogonality(tw: int -> Complex, n: int, d: int)
    requires Twiddles(tw, n)
    ensures Sum(0, n, PartRe(tw, d)) == if d % n == 0 then n as real else 0.0
  {
    var c := PartRe(tw, d);
    if d % n == 0 {
      forall k | 0 <= k < n ensures c(k) == 1.0 { PartWhole(tw, n, d, k); }
      SumOnes(n, c);
    } else {
      forall k | 0 <= k < n ensures Spins(tw(d), c, PartIm(tw, d), k) { PartStep(tw, n, d, k); }
      PartTurn(tw, n, d);
      assert OrderLaw(tw, n, d);
      SpinSum(n, tw(d), c, PartIm(tw, d));
    }
  }

  /** Step `k` of the pair `(c, s)` is multiplication by `t`. */
  ghost predicate Spins(t: Complex, c: int -> real, s: int -> real, k: int) {
    && c(k + 1) == Times(t.re, c(k)) + Times(-t.im, s(k))
    && s(k + 1) == Times(t.im, c(k)) + Times(t.re, s(k))
  }

  /** A full turn of steps by `t != 1` sums to zero: multiplying the sum by `t` permutes its terms. */
  lemma SpinSum(n: int, t: Complex, c: int -> real, s: int -> real)
    requires 0 < n && t != ONE && c(n) == c(0) && s(n) == s(0)
    requires forall k | 0 <= k < n :: Spins(t, c, s, k)
    ensures Sum(0, n, c) == 0.0 == Sum(0, n, s)
  {
    SpinRe(n, t, c, s);
    SpinIm(n, t, c, s);
    FixedPointIsZero(t, Sum(0, n, c), Sum(0, n, s));
  }

  ghost predicate StepsBy(f: int -> real, a: real, c: int -> real, b: real, s: int -> real, k: int) {
    f(k + 1) == Times(a, c(k)) + Times(b, s(k))
  }

  function Multiple(a: real, f: int -> real): int -> real { k => Times(a, f(k)) }

  lemma TurnedSum(n: int, f: int -> real, a: real, c: int -> real, b: real, s: int -> real)
    requires 0 < n && f(n) == f(0)
    requires forall k | 0 <= k < n :: StepsBy(f, a, c, b, s, k)
    ensures Sum(0, n, f) == Times(a, Sum(0, n, c)) + Times(b, Sum(0, n, s))
  {
    var g, h := Multiple(a, c), Multiple(b, s);
    var next: int -> real := k => f(k + 1);
    forall k | 0 <= k < n ensures next(k) == g(k) + h(k) { assert StepsBy(f, a, c, b, s, k); }
    FullTurn(n, f, next);
    SumAdded(0, n, next, g, h);
    SumTimes(0, n, g, a, c);
    SumTimes(0, n, h, b, s);
  }

  lemma SpinRe(n: int, t: Complex, c: int -> real, s: int -> real)
    requires 0 < n && c(n) == c(0)
    requires forall k | 0 <= k < n :: Spins(t, c, s, k)
    ensures Sum(0, n, c) == Times(t.re, Sum(0, n, c)) + Times(-t.im, Sum(0, n, s))
  {
    var a, b := t.re, -t.im;
    forall k | 0 <= k < n ensures StepsBy(c, a, c, b, s, k) { assert Spins(t, c, s, k); }
    TurnedSum(n, c, a, c, b, s);
  }

  lemma SpinIm(n: int, t: Complex, c: int -> real, s: int -> real)
    requires 0 < n && s(n) == s(0)
    requires forall k | 0 <= k < n :: Spins(t, c, s, k)
    ensures Sum(0, n, s) == Times(t.im, Sum(0, n, c)) + Times(t.re, Sum(0, n, s))
  {
    forall k | 0 <= k < n ensures StepsBy(s, t.im, c, t.re, s, k) { assert Spins(t, c, s, k); }
    TurnedSum(n, s, t.im, c, t.re, s);
  }

  lemma {:induction false} SumOnes(n: int, f: int -> real)
    requires 0 <= n && forall k | 0 <= k < n :: f(k) == 1.0
    ensures Sum(0, n, f) == n as real
  {
    if n > 0 { SumOnes(n - 1, f); }
  }

  /** Stepping a term that returns to its start after `n` steps does not change its sum. */
  lemma FullTurn(n: int, f: int -> real, f': int -> real)
    requires 0 < n && f(n) == f(0)
    requires forall k | 0 <= k < n :: f'(k) == f(k + 1)
    ensures Sum(0, n, f) == Sum(0, n, f')
  {
    SumMoved(1, n + 1, 0, n, f, f');
    SumSplit(0, 1, n + 1, f);
    assert Sum(0, n + 1, f) == Sum(0, n, f) + f(n);
    assert Sum(0, 1, f) == Sum(0, 0, f) + f(0);
  }

  lemma FixedPointIsZero(t: Complex, x: real, y: real)
    requires t != ONE
    requires x == Times(t.re, x) + Times(-t.im, y)
    requires y == Times(t.im, x) + Times(t.re, y)
    ensures x == 0.0 && y == 0.0
  {
    var a, b := t.re - 1.0, t.im;
    assert a * x == b * y && a * y == -(b * x);
    assert (a * a + b * b) * x == 0.0 by {
      assert a * a * x == a * (a * x) == a * (b * y) == b * (a * y) == -(b * b * x);
    }
    assert (a * a + b * b) * y == 0.0 by {
      assert a * a * y == a * (a * y) == -(a * (b * x)) == -(b * (a * x)) == -(b * b * y);
    }
    assert a * a + b * b > 0.0;
  }
}
