/**
 The real discrete Fourier transform in FFTW's packed layout. A buffer for a transform of size
 2*P holds 2*P + 2 reals: in the time domain the first 2*P are the samples, in the frequency
 domain bin k (0 <= k <= P) is the pair at 2*k and 2*k + 1.
 */
module Spectrum {
  import opened Summation
  import opened RootsOfUnity

  /** Sample `j` of a signal that is zero outside its stored part. */
  function At(u: seq<real>, j: int): real { if 0 <= j < |u| then u[j] else 0.0 }

  function Scaled(a: real, u: seq<real>): (s: seq<real>)
    ensures |s| == |u|
  {
    seq(|u|, i requires 0 <= i < |u| => Times(a, u[i]))
  }

  function TermRe(tw: int -> Complex, u: seq<real>, k: int): int -> real { j => At(u, j) * tw(j * k).re }

  function TermIm(tw: int -> Complex, u: seq<real>, k: int): int -> real { j => At(u, j) * tw(j * k).im }

  /** Real and imaginary part of frequency bin `k` of a size-`n` transform. */
  function BinRe(tw: int -> Complex, n: int, u: seq<real>, k: int): real { Sum(0, n, TermRe(tw, u, k)) }

  function BinIm(tw: int -> Complex, n: int, u: seq<real>, k: int): real { Sum(0, n, TermIm(tw, u, k)) }

  /** The real-to-complex transform of size `2 * p`, packed. */
  function Forward(tw: int -> Complex, p: nat, u: seq<real>): (b: seq<real>)
    ensures |b| == 2 * p + 2
  {
    seq(2 * p + 2, i => if i % 2 == 0 then BinRe(tw, 2 * p, u, i / 2) else BinIm(tw, 2 * p, u, i / 2))
  }

  /** Bin `k` of the whole Hermitian spectrum that the packed half `b` stands for. */
  function WholeRe(p: nat, b: seq<real>, k: int): real { if k <= p then At(b, 2 * k) else At(b, 2 * (2 * p - k)) }

  function WholeIm(p: nat, b: seq<real>, k: int): real {
    if k <= p then At(b, 2 * k + 1) else -At(b, 2 * (2 * p - k) + 1)
  }

  function BackTerm(tw: int -> Complex, p: nat, b: seq<real>, j: int): int -> real {
    k => WholeRe(p, b, k) * tw(j * k).re + WholeIm(p, b, k) * tw(j * k).im
  }

  /** The unnormalised complex-to-real transform of size `2 * p`. */
  function Backward(tw: int -> Complex, p: nat, b: seq<real>): (u: seq<real>)
    ensures |u| == 2 * p
  {
    seq(2 * p, j => Sum(0, 2 * p, BackTerm(tw, p, b, j)))
  }

  lemma ForwardBin(tw: int -> Complex, p: nat, u: seq<real>, k: int)
    requires 0 <= k <= p
    ensures Forward(tw, p, u)[2 * k] == BinRe(tw, 2 * p, u, k)
    ensures Forward(tw, p, u)[2 * k + 1] == BinIm(tw, 2 * p, u, k)
  {}

  /** The transform sees nothing beyond the first `2 * p` samples. */
  lemma ForwardCongruent(tw: int -> Complex, p: nat, u: seq<real>, v: seq<real>)
    requires forall j | 0 <= j < 2 * p :: At(u, j) == At(v, j)
    ensures Forward(tw, p, u) == Forward(tw, p, v)
  {
    forall k
      ensures BinRe(tw, 2 * p, u, k) == BinRe(tw, 2 * p, v, k)
              && BinIm(tw, 2 * p, u, k) == BinIm(tw, 2 * p, v, k) {
      SumCongruent(0, 2 * p, TermRe(tw, u, k), TermRe(tw, v, k));
      SumCongruent(0, 2 * p, TermIm(tw, u, k), TermIm(tw, v, k));
    }
  }

  lemma BinAdd(tw: int -> Complex, n: int, u: seq<real>, v: seq<real>, s: seq<real>, k: int)
    requires forall j | 0 <= j < n :: At(s, j) == At(u, j) + At(v, j)
    ensures BinRe(tw, n, s, k) == BinRe(tw, n, u, k) + BinRe(tw, n, v, k)
    ensures BinIm(tw, n, s, k) == BinIm(tw, n, u, k) + BinIm(tw, n, v, k)
  {
    forall j | 0 <= j < n
      ensures TermRe(tw, s, k)(j) == TermRe(tw, u, k)(j) + TermRe(tw, v, k)(j)
      ensures TermIm(tw, s, k)(j) == TermIm(tw, u, k)(j) + TermIm(tw, v, k)(j)
    {}
    SumAdded(0, n, TermRe(tw, s, k), TermRe(tw, u, k), TermRe(tw, v, k));
    SumAdded(0, n, TermIm(tw, s, k), TermIm(tw, u, k), TermIm(tw, v, k));
  }

  lemma BinZero(tw: int -> Complex, n: int, u: seq<real>, k: int)
    requires forall j | 0 <= j < n :: At(u, j) == 0.0
    ensures BinRe(tw, n, u, k) == 0.0 && BinIm(tw, n, u, k) == 0.0
  {
    SumZero(0, n, TermRe(tw, u, k));
    SumZero(0, n, TermIm(tw, u, k));
  }

  // The convolution theorem.

  /** Where sample `t` of a circular convolution of size `n` finds its partner of `d`. */
  function Around(n: int, t: int, d: int): int { if d <= t then t - d else t - d + n }

  function CircularTerm(n: int, x: seq<real>, h: seq<real>, t: int): int -> real {
    d => At(h, d) * At(x, Around(n, t, d))
  }

  /** The circular convolution of size `n`. */
  function Circular(n: nat, x: seq<real>, h: seq<real>): (y: seq<real>)
    ensures |y| == n
  {
    seq(n, t => Sum(0, n, CircularTerm(n, x, h, t)))
  }

  /** Terms of the double sum behind a weighted circular convolution. */
  function Weighted(n: int, x: seq<real>, h: seq<real>, e: int -> real): (int, int) -> real {
    (t, d) => At(h, d) * At(x, Around(n, t, d)) * e(t)
  }

  function Termwise(u: seq<real>, e: int -> real): int -> real { j => At(u, j) * e(j) }

  /** Weight `e` factors over the shift by `d`. */
  ghost predicate Factors(n: int, e: int -> real, a: int -> real, a': int -> real, b: int -> real, b': int -> real,
      t: int, d: int) {
    e(t) == a(Around(n, t, d)) * a'(d) + b(Around(n, t, d)) * b'(d)
  }

  lemma WeightedColumn(n: nat, x: seq<real>, h: seq<real>, e: int -> real, a: int -> real, a': int -> real,
                       b: int -> real, b': int -> real, d: int)
    requires 0 <= d < n
    requires forall t | 0 <= t < n :: Factors(n, e, a, a', b, b', t, d)
    ensures Sum(0, n, Col(Weighted(n, x, h, e), d))
         == Sum(0, n, Termwise(x, a)) * (At(h, d) * a'(d)) + Sum(0, n, Termwise(x, b)) * (At(h, d) * b'(d))
  {
    var col, p, q := Col(Weighted(n, x, h, e), d), At(h, d) * a'(d), At(h, d) * b'(d);
    var line := Combine(p, Termwise(x, a), q, Termwise(x, b));
    assert Sum(0, n, col) == Sum(0, n, line) by {
      forall t | 0 <= t < n ensures col(t) == line(Around(n, t, d)) { WeightedEntry(n, x, h, e, a, a', b, b', t, d); }
      SumCyclic(n, d, line, col);
    }
    SumLinear(0, n, line, p, Termwise(x, a), q, Termwise(x, b));
  }

  lemma WeightedEntry(n: nat, x: seq<real>, h: seq<real>, e: int -> real, a: int -> real, a': int -> real,
                      b: int -> real, b': int -> real, t: int, d: int)
    requires Factors(n, e, a, a', b, b', t, d)
    ensures Col(Weighted(n, x, h, e), d)(t)
         == Combine(At(h, d) * a'(d), Termwise(x, a), At(h, d) * b'(d), Termwise(x, b))(Around(n, t, d))
  {}

  lemma WeightedCircular(n: nat, x: seq<real>, h: seq<real>, e: int -> real, a: int -> real, a': int -> real,
                         b: int -> real, b': int -> real)
    requires forall t, d | 0 <= t < n && 0 <= d < n :: Factors(n, e, a, a', b, b', t, d)
    ensures Sum(0, n, Termwise(Circular(n, x, h), e))
         == Sum(0, n, Termwise(x, a)) * Sum(0, n, Termwise(h, a'))
           + Sum(0, n, Termwise(x, b)) * Sum(0, n, Termwise(h, b'))
  {
    var g := Weighted(n, x, h, e);
    forall t | 0 <= t < n ensures Termwise(Circular(n, x, h), e)(t) == RowSums(0, n, g)(t) {
      SumLinear(0, n, Row(g, t), e(t), CircularTerm(n, x, h, t), 0.0, CircularTerm(n, x, h, t));
    }
    assert Sum(0, n, Termwise(Circular(n, x, h), e)) == Sum(0, n, RowSums(0, n, g)) by {
      SumCongruent(0, n, Termwise(Circular(n, x, h), e), RowSums(0, n, g));
    }
    SumExchange(0, n, 0, n, g);
    WeightedColumns(n, x, h, e, a, a', b, b');
  }

  lemma WeightedColumns(n: nat, x: seq<real>, h: seq<real>, e: int -> real, a: int -> real, a': int -> real,
                        b: int -> real, b': int -> real)
    requires forall t, d | 0 <= t < n && 0 <= d < n :: Factors(n, e, a, a', b, b', t, d)
    ensures Sum(0, n, ColSums(0, n, Weighted(n, x, h, e)))
         == Sum(0, n, Termwise(x, a)) * Sum(0, n, Termwise(h, a'))
           + Sum(0, n, Termwise(x, b)) * Sum(0, n, Termwise(h, b'))
  {
    var p, q := Sum(0, n, Termwise(x, a)), Sum(0, n, Termwise(x, b));
    var cols := ColSums(0, n, Weighted(n, x, h, e));
    forall d | 0 <= d < n ensures ColumnWeighs(cols, p, Termwise(h, a'), q, Termwise(h, b'), d) {
      WeightedColumn(n, x, h, e, a, a', b, b', d);
    }
    SumColumns(n, cols, p, Termwise(h, a'), q, Termwise(h, b'));
  }

  ghost predicate ColumnWeighs(cols: int -> real, p: real, f: int -> real, q: real, g: int -> real, d: int) {
    cols(d) == p * f(d) + q * g(d)
  }

  lemma SumColumns(n: nat, cols: int -> real, p: real, f: int -> real, q: real, g: int -> real)
    requires forall d | 0 <= d < n :: ColumnWeighs(cols, p, f, q, g, d)
    ensures Sum(0, n, cols) == p * Sum(0, n, f) + q * Sum(0, n, g)
  {
    forall d | 0 <= d < n ensures cols(d) == p * f(d) + q * g(d) { assert ColumnWeighs(cols, p, f, q, g, d); }
    SumLinear(0, n, cols, p, f, q, g);
  }

  function Cosine(tw: int -> Complex, k: int): int -> real { j => tw(j * k).re }

  function Sine(tw: int -> Complex, k: int): int -> real { j => tw(j * k).im }

  function MinusSine(tw: int -> Complex, k: int): int -> real { j => -tw(j * k).im }

  lemma TwiddleAround(tw: int -> Complex, n: nat, k: int, t: int, d: int)
    requires Twiddles(tw, n)
    ensures Factors(n, Cosine(tw, k), Cosine(tw, k), Cosine(tw, k), Sine(tw, k), MinusSine(tw, k), t, d)
    ensures Factors(n, Sine(tw, k), Sine(tw, k), Cosine(tw, k), Cosine(tw, k), Sine(tw, k), t, d)
  {
    var m := Around(n, t, d);
    assert tw((m + d) * k) == Mul(tw(m * k), tw(d * k)) by {
      assert (m + d) * k == m * k + d * k;
      assert AddLaw(tw, m * k, d * k);
    }
    if t < d {
      assert (m + d) * k == t * k + k * n;
      assert AddLaw(tw, t * k, k * n) && TurnLaw(tw, n, k);
      MulOne(tw(t * k));
    }
  }

  /** Bin by bin, the transform of a circular convolution is the product of the transforms. */
  lemma ConvolutionTheorem(tw: int -> Complex, n: nat, x: seq<real>, h: seq<real>, k: int)
    requires Twiddles(tw, n)
    ensures BinRe(tw, n, Circular(n, x, h), k)
            == BinRe(tw, n, x, k) * BinRe(tw, n, h, k) - BinIm(tw, n, x, k) * BinIm(tw, n, h, k)
    ensures BinIm(tw, n, Circular(n, x, h), k)
            == BinRe(tw, n, x, k) * BinIm(tw, n, h, k) + BinIm(tw, n, x, k) * BinRe(tw, n, h, k)
  {
    ConvolutionRe(tw, n, x, h, k);
    ConvolutionIm(tw, n, x, h, k);
  }

  lemma ConvolutionRe(tw: int -> Complex, n: nat, x: seq<real>, h: seq<real>, k: int)
    requires Twiddles(tw, n)
    ensures BinRe(tw, n, Circular(n, x, h), k)
            == BinRe(tw, n, x, k) * BinRe(tw, n, h, k) - BinIm(tw, n, x, k) * BinIm(tw, n, h, k)
  {
    var c, s, s' := Cosine(tw, k), Sine(tw, k), MinusSine(tw, k);
    BinTimes(tw, n, x, k);
    BinTimes(tw, n, h, k);
    BinTimes(tw, n, Circular(n, x, h), k);
    forall t, d ensures Factors(n, c, c, c, s, s', t, d) { TwiddleAround(tw, n, k, t, d); }
    WeightedCircular(n, x, h, c, c, c, s, s');
  }

  lemma ConvolutionIm(tw: int -> Complex, n: nat, x: seq<real>, h: seq<real>, k: int)
    requires Twiddles(tw, n)
    ensures BinIm(tw, n, Circular(n, x, h), k)
            == BinRe(tw, n, x, k) * BinIm(tw, n, h, k) + BinIm(tw, n, x, k) * BinRe(tw, n, h, k)
  {
    var c, s := Cosine(tw, k), Sine(tw, k);
    BinTimes(tw, n, x, k);
    BinTimes(tw, n, h, k);
    BinTimes(tw, n, Circular(n, x, h), k);
    forall t, d ensures Factors(n, s, s, c, c, s, t, d) { TwiddleAround(tw, n, k, t, d); }
    WeightedCircular(n, x, h, s, s, c, c, s);
  }

  lemma BinTimes(tw: int -> Complex, n: nat, u: seq<real>, k: int)
    ensures BinRe(tw, n, u, k) == Sum(0, n, Termwise(u, Cosine(tw, k)))
    ensures BinIm(tw, n, u, k) == Sum(0, n, Termwise(u, Sine(tw, k)))
    ensures -BinIm(tw, n, u, k) == Sum(0, n, Termwise(u, MinusSine(tw, k)))
  {}

  /** Adding, bin by bin, the product of the spectra `x` and `h` to the spectrum `row`. */
  function Accumulated(p: nat, row: seq<real>, x: seq<real>, h: seq<real>): (s: seq<real>)
    requires |row| == |x| == |h| == 2 * p + 2
    ensures |s| == 2 * p + 2
  {
    seq(2 * p + 2, i requires 0 <= i < 2 * p + 2 =>
      row[i] + if i % 2 == 0 then ProductRe(x, h, i) else ProductIm(x, h, i - 1))
  }

  /** The product of the bins of two spectra at place `i`. */
  function ProductRe(x: seq<real>, h: seq<real>, i: nat): real
    requires i + 1 < |x| && i + 1 < |h|
  {
    x[i] * h[i] - x[i + 1] * h[i + 1]
  }

  function ProductIm(x: seq<real>, h: seq<real>, i: nat): real
    requires i + 1 < |x| && i + 1 < |h|
  {
    x[i] * h[i + 1] + x[i + 1] * h[i]
  }

  lemma AccumulatedAt(p: nat, row: seq<real>, x: seq<real>, h: seq<real>, k: int)
    requires |row| == |x| == |h| == 2 * p + 2 && 0 <= k <= p
    ensures Accumulated(p, row, x, h)[2 * k] == row[2 * k] + ProductRe(x, h, 2 * k)
    ensures Accumulated(p, row, x, h)[2 * k + 1] == row[2 * k + 1] + ProductIm(x, h, 2 * k)
  {
    assert (2 * k) % 2 == 0 && (2 * k + 1) % 2 == 1;
  }

  /** Bin `k` of `sum` is bin `k` of `row` plus the complex product of the bins of `x` and `h`. */
  ghost predicate BinAccumulates(p: nat, sum: seq<real>, row: seq<real>, x: seq<real>, h: seq<real>, k: int)
    requires |sum| == |row| == |x| == |h| == 2 * p + 2 && 0 <= k <= p
  {
    && sum[2 * k] == row[2 * k] + ProductRe(x, h, 2 * k)
    && sum[2 * k + 1] == row[2 * k + 1] + ProductIm(x, h, 2 * k)
  }

  lemma AccumulatedUnique(p: nat, sum: seq<real>, row: seq<real>, x: seq<real>, h: seq<real>)
    requires |sum| == |row| == |x| == |h| == 2 * p + 2
    requires forall k | 0 <= k <= p :: BinAccumulates(p, sum, row, x, h, k)
    ensures Accumulated(p, row, x, h) == sum
  {
    var a := Accumulated(p, row, x, h);
    forall i | 0 <= i < 2 * p + 2 ensures a[i] == sum[i] {
      var k := i / 2;
      assert BinAccumulates(p, sum, row, x, h, k);
      AccumulatedAt(p, row, x, h, k);
      assert i == 2 * k || i == 2 * k + 1;
    }
  }

  /** In the frequency domain, accumulating a product adds a circular convolution. */
  lemma AccumulatedIsConvolution(tw: int -> Complex, p: nat, u: seq<real>, x: seq<real>, h: seq<real>, s: seq<real>)
    requires Twiddles(tw, 2 * p)
    requires forall j | 0 <= j < 2 * p :: At(s, j) == At(u, j) + At(Circular(2 * p, x, h), j)
    ensures Accumulated(p, Forward(tw, p, u), Forward(tw, p, x), Forward(tw, p, h)) == Forward(tw, p, s)
  {
    var s', u', x', h' := Forward(tw, p, s), Forward(tw, p, u), Forward(tw, p, x), Forward(tw, p, h);
    forall k | 0 <= k <= p ensures BinAccumulates(p, s', u', x', h', k) {
      ForwardAccumulates(tw, p, u, x, h, s, k, s', u', x', h');
    }
    AccumulatedUnique(p, s', u', x', h');
  }

  lemma ForwardAccumulates(tw: int -> Complex, p: nat, u: seq<real>, x: seq<real>, h: seq<real>, s: seq<real>, k: int,
                           s': seq<real>, u': seq<real>, x': seq<real>, h': seq<real>)
    requires Twiddles(tw, 2 * p) && 0 <= k <= p
    requires forall j | 0 <= j < 2 * p :: At(s, j) == At(u, j) + At(Circular(2 * p, x, h), j)
    requires s' == Forward(tw, p, s) && u' == Forward(tw, p, u) && x' == Forward(tw, p, x) && h' == Forward(tw, p, h)
    ensures BinAccumulates(p, s', u', x', h', k)
  {
    var n := 2 * p;
    ProductBin(tw, n, u, x, h, s, k);
    ForwardBin(tw, p, u, k);
    ForwardBin(tw, p, x, k);
    ForwardBin(tw, p, h, k);
    ForwardBin(tw, p, s, k);
    BinValues(p, s', u', x', h', k, Bin(tw, n, s, k), Bin(tw, n, u, k), Bin(tw, n, x, k), Bin(tw, n, h, k));
  }

  /** Bin `k` of a spectrum, as a complex number. */
  function Bin(tw: int -> Complex, n: nat, u: seq<real>, k: int): Complex {
    Complex(BinRe(tw, n, u, k), BinIm(tw, n, u, k))
  }

  function Plus(a: Complex, b: Complex): Complex { Complex(a.re + b.re, a.im + b.im) }

  lemma BinValues(p: nat, sum: seq<real>, row: seq<real>, x: seq<real>, h: seq<real>, k: int, s: Complex, r: Complex,
      a: Complex, b: Complex)
    requires |sum| == |row| == |x| == |h| == 2 * p + 2 && 0 <= k <= p
    requires sum[2 * k] == s.re && sum[2 * k + 1] == s.im && row[2 * k] == r.re && row[2 * k + 1] == r.im
    requires x[2 * k] == a.re && x[2 * k + 1] == a.im && h[2 * k] == b.re && h[2 * k + 1] == b.im
    requires s == Plus(r, Mul(a, b))
    ensures BinAccumulates(p, sum, row, x, h, k)
  {}

  lemma ProductBin(tw: int -> Complex, n: nat, u: seq<real>, x: seq<real>, h: seq<real>, s: seq<real>, k: int)
    requires Twiddles(tw, n)
    requires forall j | 0 <= j < n :: At(s, j) == At(u, j) + At(Circular(n, x, h), j)
    ensures Bin(tw, n, s, k) == Plus(Bin(tw, n, u, k), Mul(Bin(tw, n, x, k), Bin(tw, n, h, k)))
  {
    ConvolutionTheorem(tw, n, x, h, k);
    BinAdd(tw, n, u, Circular(n, x, h), s, k);
  }

  // Inversion.

  /** The second half of a real signal's spectrum mirrors the first, conjugated. */
  lemma Hermitian(tw: int -> Complex, n: nat, u: seq<real>, k: int)
    requires Twiddles(tw, n)
    ensures BinRe(tw, n, u, n - k) == BinRe(tw, n, u, k)
    ensures BinIm(tw, n, u, n - k) == -BinIm(tw, n, u, k)
  {
    forall j ensures tw(j * (n - k)) == Conj(tw(j * k)) { TwiddleMirror(tw, n, j, k); }
    SumCongruent(0, n, TermRe(tw, u, n - k), TermRe(tw, u, k));
    SumLinear(0, n, TermIm(tw, u, n - k), -1.0, TermIm(tw, u, k), 0.0, TermIm(tw, u, k));
  }

  lemma TwiddleMirror(tw: int -> Complex, n: nat, j: int, k: int)
    requires Twiddles(tw, n)
    ensures tw(j * (n - k)) == Conj(tw(j * k))
  {
    assert j * (n - k) == -(j * k) + j * n;
    assert AddLaw(tw, -(j * k), j * n) && TurnLaw(tw, n, j) && NegLaw(tw, j * k);
    MulOne(tw(-(j * k)));
  }

  lemma WholeSpectrum(tw: int -> Complex, p: nat, u: seq<real>, k: int)
    requires Twiddles(tw, 2 * p) && 0 <= k < 2 * p
    ensures WholeRe(p, Forward(tw, p, u), k) == BinRe(tw, 2 * p, u, k)
    ensures WholeIm(p, Forward(tw, p, u), k) == BinIm(tw, 2 * p, u, k)
  {
    if k <= p {
      ForwardBin(tw, p, u, k);
    } else {
      ForwardBin(tw, p, u, 2 * p - k);
      Hermitian(tw, 2 * p, u, k);
    }
  }

  /** Terms of the double sum behind transforming there and back. */
  function ThereAndBack(tw: int -> Complex, u: seq<real>, j: int): (int, int) -> real {
    (k, m) => At(u, m) * tw(m * k).re * tw(j * k).re + At(u, m) * tw(m * k).im * tw(j * k).im
  }

  /** Backward undoes Forward, up to the transform size. */
  lemma Inversion(tw: int -> Complex, p: nat, u: seq<real>, j: int)
    requires Twiddles(tw, 2 * p) && 0 <= j < 2 * p
    ensures Backward(tw, p, Forward(tw, p, u))[j] == Times((2 * p) as real, At(u, j))
  {
    var n, g, b := 2 * p, ThereAndBack(tw, u, j), Forward(tw, p, u);
    assert Sum(0, n, BackTerm(tw, p, b, j)) == Sum(0, n, RowSums(0, n, g)) by {
      forall k | 0 <= k < n ensures BackTerm(tw, p, b, j)(k) == RowSums(0, n, g)(k) { InversionRow(tw, p, u, j, k); }
      SumCongruent(0, n, BackTerm(tw, p, b, j), RowSums(0, n, g));
    }
    SumExchange(0, n, 0, n, g);
    InversionColumns(tw, n, u, j);
  }

  lemma InversionAll(tw: int -> Complex, p: nat, u: seq<real>)
    requires Twiddles(tw, 2 * p) && |u| == 2 * p
    ensures Backward(tw, p, Forward(tw, p, u)) == Scaled((2 * p) as real, u)
  {
    var v, w := Backward(tw, p, Forward(tw, p, u)), Scaled((2 * p) as real, u);
    forall j | 0 <= j < 2 * p ensures v[j] == w[j] { Inversion(tw, p, u, j); }
  }

  lemma InversionRow(tw: int -> Complex, p: nat, u: seq<real>, j: int, k: int)
    requires Twiddles(tw, 2 * p) && 0 <= k < 2 * p
    ensures BackTerm(tw, p, Forward(tw, p, u), j)(k) == Sum(0, 2 * p, Row(ThereAndBack(tw, u, j), k))
  {
    BackTermBin(tw, p, u, j, k, tw(j * k).re, tw(j * k).im);
    RowOfTerms(tw, 2 * p, u, j, k, tw(j * k).re, tw(j * k).im);
  }

  lemma BackTermBin(tw: int -> Complex, p: nat, u: seq<real>, j: int, k: int, c: real, s: real)
    requires Twiddles(tw, 2 * p) && 0 <= k < 2 * p && c == tw(j * k).re && s == tw(j * k).im
    ensures BackTerm(tw, p, Forward(tw, p, u), j)(k)
            == Times(BinRe(tw, 2 * p, u, k), c) + Times(BinIm(tw, 2 * p, u, k), s)
  {
    WholeSpectrum(tw, p, u, k);
  }

  lemma RowOfTerms(tw: int -> Complex, n: nat, u: seq<real>, j: int, k: int, c: real, s: real)
    requires c == tw(j * k).re && s == tw(j * k).im
    ensures Sum(0, n, Row(ThereAndBack(tw, u, j), k)) == Times(BinRe(tw, n, u, k), c) + Times(BinIm(tw, n, u, k), s)
  {}

  lemma InversionColumns(tw: int -> Complex, n: nat, u: seq<real>, j: int)
    requires Twiddles(tw, n) && 0 <= j < n
    ensures Sum(0, n, ColSums(0, n, ThereAndBack(tw, u, j))) == Times(n as real, At(u, j))
  {
    var cols := ColSums(0, n, ThereAndBack(tw, u, j));
    forall m | 0 <= m < n ensures cols(m) == if m == j then Times(n as real, At(u, j)) else 0.0 {
      InversionColumn(tw, n, u, j, m);
    }
    SumSingle(0, n, j, cols);
  }

  lemma InversionColumn(tw: int -> Complex, n: nat, u: seq<real>, j: int, m: int)
    requires Twiddles(tw, n) && 0 <= j < n && 0 <= m < n
    ensures Sum(0, n, Col(ThereAndBack(tw, u, j), m)) == if m == j then Times(n as real, At(u, j)) else 0.0
  {
    var col, c := Col(ThereAndBack(tw, u, j), m), PartRe(tw, m - j);
    forall k | 0 <= k < n ensures col(k) == Times(At(u, m), c(k)) { ColumnEntry(tw, n, u, j, m, k); }
    SumTimes(0, n, col, At(u, m), c);
    Orthogonality(tw, n, m - j);
    DifferenceMod(m, j, n);
    TimesSum(At(u, m), 0.0, 0.0);
    TimesSwap(At(u, m), n as real);
  }

  lemma ColumnEntry(tw: int -> Complex, n: nat, u: seq<real>, j: int, m: int, k: int)
    requires Twiddles(tw, n)
    ensures Col(ThereAndBack(tw, u, j), m)(k) == Times(At(u, m), PartRe(tw, m - j)(k))
  {
    TwiddleDifference(tw, n, m, j, k);
  }

  lemma TwiddleDifference(tw: int -> Complex, n: nat, m: int, j: int, k: int)
    requires Twiddles(tw, n)
    ensures PartRe(tw, m - j)(k) == tw(m * k).re * tw(j * k).re + tw(m * k).im * tw(j * k).im
  {
    assert (m - j) * k == m * k + -(j * k);
    assert AddLaw(tw, m * k, -(j * k)) && NegLaw(tw, j * k);
  }

  lemma DifferenceMod(m: int, j: int, n: int)
    requires 0 <= j < n && 0 <= m < n
    ensures (m - j) % n == 0 <==> m == j
  {}
}
