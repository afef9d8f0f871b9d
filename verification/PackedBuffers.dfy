/**
 Buffers that no transform wrote. Any packed buffer is the spectrum of one real signal, but for the
 imaginary parts of the first and the last bin: a real signal has none there, and the transform back
 does not look at them.
 */
module PackedBuffers {
  import opened Arithmetic
  import opened Summation
  import opened RootsOfUnity
  import opened Spectrum

  /** The buffer without the two floats that the transform back does not look at. */
  function Cleaned(p: nat, b: seq<real>): (c: seq<real>)
    requires |b| == 2 * p + 2
    ensures |c| == |b|
  {
    b[1 := 0.0][2 * p + 1 := 0.0]
  }

  predicate Clean(p: nat, b: seq<real>) { |b| == 2 * p + 2 && b[1] == 0.0 && b[2 * p + 1] == 0.0 }

  /** Half a turn is real. */
  lemma HalfTurn(tw: int -> Complex, p: nat, j: int)
    requires Twiddles(tw, 2 * p)
    ensures tw(j * 0).im == 0.0 && tw(j * p).im == 0.0
  {
    TwiddleMirror(tw, 2 * p, j, p);
    assert TurnLaw(tw, 2 * p, 0) && j * 0 == 0 * (2 * p);
  }

  /** A spectrum of a real signal is clean. */
  lemma ForwardClean(tw: int -> Complex, p: nat, u: seq<real>)
    requires Twiddles(tw, 2 * p)
    ensures Clean(p, Forward(tw, p, u)) && Cleaned(p, Forward(tw, p, u)) == Forward(tw, p, u)
  {
    ForwardBin(tw, p, u, 0);
    ForwardBin(tw, p, u, p);
    forall j ensures TermIm(tw, u, 0)(j) == 0.0 == TermIm(tw, u, p)(j) { HalfTurn(tw, p, j); }
    SumZero(0, 2 * p, TermIm(tw, u, 0));
    SumZero(0, 2 * p, TermIm(tw, u, p));
  }

  lemma SameBin(p: nat, b: seq<real>, k: int)
    requires |b| == 2 * p + 2 && 0 <= k < 2 * p
    ensures WholeRe(p, Cleaned(p, b), k) == WholeRe(p, b, k)
    ensures k != 0 && k != p ==> WholeIm(p, Cleaned(p, b), k) == WholeIm(p, b, k)
  {}

  /** The transform back does not look at the two floats. */
  lemma BackwardCleaned(tw: int -> Complex, p: nat, b: seq<real>)
    requires Twiddles(tw, 2 * p) && |b| == 2 * p + 2
    ensures Backward(tw, p, Cleaned(p, b)) == Backward(tw, p, b)
  {
    forall j ensures Sum(0, 2 * p, BackTerm(tw, p, Cleaned(p, b), j)) == Sum(0, 2 * p, BackTerm(tw, p, b, j)) {
      forall k | 0 <= k < 2 * p ensures BackTerm(tw, p, Cleaned(p, b), j)(k) == BackTerm(tw, p, b, j)(k) {
        if k == 0 || k == p { HalfTurn(tw, p, j); } else { SameBin(p, b, k); }
      }
      SumCongruent(0, 2 * p, BackTerm(tw, p, Cleaned(p, b), j), BackTerm(tw, p, b, j));
    }
  }

  /** Nor do they spread to other floats in products with a clean spectrum. */
  lemma AccumulatedCleaned(p: nat, row: seq<real>, x: seq<real>, h: seq<real>)
    requires |row| == |x| == 2 * p + 2 && Clean(p, h)
    ensures Cleaned(p, Accumulated(p, row, x, h)) == Accumulated(p, Cleaned(p, row), Cleaned(p, x), h)
  {
    var row', x' := Cleaned(p, row), Cleaned(p, x);
    var a := Cleaned(p, Accumulated(p, row, x, h));
    forall k | 0 <= k <= p ensures BinAccumulates(p, a, row', x', h, k) {
      AccumulatedAt(p, row, x, h, k);
      if k == 0 || k == p { CleanProduct(x[2 * k], x[2 * k + 1], h[2 * k], h[2 * k + 1]); }
    }
    AccumulatedUnique(p, a, row', x', h);
  }

  lemma CleanProduct(x: real, x': real, h: real, h': real)
    requires h' == 0.0
    ensures x * h - x' * h' == x * h == x * h - 0.0 * h' && x * h' + 0.0 * h == 0.0
  {}

  // Every clean buffer is a spectrum.

  /** The signal that a buffer stands for. */
  function Recovered(tw: int -> Complex, p: nat, b: seq<real>): (u: seq<real>)
    requires 0 < p
    ensures |u| == 2 * p
  {
    Scaled(1.0 / (2 * p) as real, Backward(tw, p, b))
  }

  function Product(f: int -> real, g: int -> real): int -> real { j => f(j) * g(j) }

  lemma SumProducts(tw: int -> Complex, n: nat, k: int, m: int)
    requires Twiddles(tw, n)
    ensures Sum(0, n, Product(Cosine(tw, k), Cosine(tw, m)))
         == 0.5 * Sum(0, n, PartRe(tw, k - m)) + 0.5 * Sum(0, n, PartRe(tw, k + m))
    ensures Sum(0, n, Product(Sine(tw, k), Sine(tw, m)))
         == 0.5 * Sum(0, n, PartRe(tw, k - m)) + -0.5 * Sum(0, n, PartRe(tw, k + m))
    ensures Sum(0, n, Product(Sine(tw, k), Cosine(tw, m)))
         == 0.5 * Sum(0, n, PartIm(tw, k + m)) + 0.5 * Sum(0, n, PartIm(tw, k - m))
    ensures Sum(0, n, Product(Cosine(tw, k), Sine(tw, m)))
         == 0.5 * Sum(0, n, PartIm(tw, k + m)) + -0.5 * Sum(0, n, PartIm(tw, k - m))
  {
    var c, c', s, s' := PartRe(tw, k - m), PartRe(tw, k + m), PartIm(tw, k - m), PartIm(tw, k + m);
    forall j | 0 <= j < n
      ensures Halves(Cosine(tw, k), Cosine(tw, m), c, 0.5, c', j)
      ensures Halves(Sine(tw, k), Sine(tw, m), c, -0.5, c', j)
      ensures Halves(Sine(tw, k), Cosine(tw, m), s', 0.5, s, j)
      ensures Halves(Cosine(tw, k), Sine(tw, m), s', -0.5, s, j)
    {
      Angles(tw, n, k, m, j);
    }
    SumHalves(n, Cosine(tw, k), Cosine(tw, m), c, 0.5, c');
    SumHalves(n, Sine(tw, k), Sine(tw, m), c, -0.5, c');
    SumHalves(n, Sine(tw, k), Cosine(tw, m), s', 0.5, s);
    SumHalves(n, Cosine(tw, k), Sine(tw, m), s', -0.5, s);
  }

  ghost predicate Halves(f: int -> real, g: int -> real, u: int -> real, b: real, v: int -> real, j: int) {
    f(j) * g(j) == 0.5 * u(j) + b * v(j)
  }

  lemma SumHalves(n: nat, f: int -> real, g: int -> real, u: int -> real, b: real, v: int -> real)
    requires forall j | 0 <= j < n :: Halves(f, g, u, b, v, j)
    ensures Sum(0, n, Product(f, g)) == 0.5 * Sum(0, n, u) + b * Sum(0, n, v)
  {
    forall j | 0 <= j < n ensures Product(f, g)(j) == 0.5 * u(j) + b * v(j) { assert Halves(f, g, u, b, v, j); }
    SumLinear(0, n, Product(f, g), 0.5, u, b, v);
  }

  /** Products at two frequencies, by the sum and the difference of the frequencies. */
  lemma Angles(tw: int -> Complex, n: nat, k: int, m: int, j: int)
    requires Twiddles(tw, n)
    ensures Halves(Cosine(tw, k), Cosine(tw, m), PartRe(tw, k - m), 0.5, PartRe(tw, k + m), j)
    ensures Halves(Sine(tw, k), Sine(tw, m), PartRe(tw, k - m), -0.5, PartRe(tw, k + m), j)
    ensures Halves(Sine(tw, k), Cosine(tw, m), PartIm(tw, k + m), 0.5, PartIm(tw, k - m), j)
    ensures Halves(Cosine(tw, k), Sine(tw, m), PartIm(tw, k + m), -0.5, PartIm(tw, k - m), j)
  {
    assert (k - m) * j == j * k + -(j * m) && (k + m) * j == j * k + j * m;
    assert AddLaw(tw, j * k, j * m) && AddLaw(tw, j * k, -(j * m)) && NegLaw(tw, j * m);
    AngleProducts(tw(j * k), tw(j * m), tw((k + m) * j), tw((k - m) * j));
  }

  lemma AngleProducts(a: Complex, b: Complex, sum: Complex, difference: Complex)
    requires sum == Mul(a, b) && difference == Mul(a, Conj(b))
    ensures a.re * b.re == 0.5 * difference.re + 0.5 * sum.re
    ensures a.im * b.im == 0.5 * difference.re + -0.5 * sum.re
    ensures a.im * b.re == 0.5 * sum.im + 0.5 * difference.im
    ensures a.re * b.im == 0.5 * sum.im + -0.5 * difference.im
  {}

  /** The imaginary parts cancel over a full turn, too. */
  lemma OrthogonalityIm(tw: int -> Complex, n: int, d: int)
    requires Twiddles(tw, n)
    ensures Sum(0, n, PartIm(tw, d)) == 0.0
  {
    var s := PartIm(tw, d);
    if d % n == 0 {
      forall k | 0 <= k < n ensures s(k) == 0.0 { PartWhole(tw, n, d, k); }
      SumZero(0, n, s);
    } else {
      forall k | 0 <= k < n ensures Spins(tw(d), PartRe(tw, d), s, k) { PartStep(tw, n, d, k); }
      PartTurn(tw, n, d);
      assert OrderLaw(tw, n, d);
      SpinSum(n, tw(d), PartRe(tw, d), s);
    }
  }

  /** The mirror image of a frequency. */
  function Mirrored(n: int, m: int): int { if m == 0 then 0 else n - m }

  function When(b: bool, x: real): real { if b then x else 0.0 }

  /** Cosines at two frequencies are orthogonal unless the frequencies are equal or mirrored; so are sines. */
  lemma Overlaps(tw: int -> Complex, n: nat, k: int, m: int)
    requires Twiddles(tw, n) && 0 <= k < n && 0 <= m < n
    ensures Sum(0, n, Product(Cosine(tw, k), Cosine(tw, m)))
         == When(k == m, 0.5 * n as real) + When(k == Mirrored(n, m), 0.5 * n as real)
    ensures Sum(0, n, Product(Sine(tw, k), Sine(tw, m)))
         == When(k == m, 0.5 * n as real) - When(k == Mirrored(n, m), 0.5 * n as real)
    ensures Sum(0, n, Product(Sine(tw, k), Cosine(tw, m))) == 0.0
    ensures Sum(0, n, Product(Cosine(tw, k), Sine(tw, m))) == 0.0
  {
    SumProducts(tw, n, k, m);
    FrequencySums(tw, n, k, m);
    HalfSums(n as real, k == m, k == Mirrored(n, m));
  }

  lemma FrequencySums(tw: int -> Complex, n: nat, k: int, m: int)
    requires Twiddles(tw, n) && 0 <= k < n && 0 <= m < n
    ensures Sum(0, n, PartRe(tw, k - m)) == When(k == m, n as real)
    ensures Sum(0, n, PartRe(tw, k + m)) == When(k == Mirrored(n, m), n as real)
    ensures Sum(0, n, PartIm(tw, k - m)) == 0.0 == Sum(0, n, PartIm(tw, k + m))
  {
    assert (k - m) % n == 0 <==> k == m by { DifferenceMod(k, m, n); }
    assert (k + m) % n == 0 <==> k == Mirrored(n, m) by { SumMod(k, m, n); }
    FrequencySum(tw, n, k - m, k == m);
    FrequencySum(tw, n, k + m, k == Mirrored(n, m));
  }

  lemma FrequencySum(tw: int -> Complex, n: nat, d: int, whole: bool)
    requires Twiddles(tw, n) && (d % n == 0 <==> whole)
    ensures Sum(0, n, PartRe(tw, d)) == When(whole, n as real) && Sum(0, n, PartIm(tw, d)) == 0.0
  {
    Orthogonality(tw, n, d);
    OrthogonalityIm(tw, n, d);
  }

  lemma HalfSums(n: real, same: bool, mirror: bool)
    ensures 0.5 * When(same, n) + 0.5 * When(mirror, n) == When(same, 0.5 * n) + When(mirror, 0.5 * n)
    ensures 0.5 * When(same, n) + -0.5 * When(mirror, n) == When(same, 0.5 * n) - When(mirror, 0.5 * n)
  {}

  lemma SumMod(k: int, m: int, n: int)
    requires 0 <= k < n && 0 <= m < n
    ensures (k + m) % n == 0 <==> k == Mirrored(n, m)
  {
    var r := if k + m < n then k + m else k + m - n;
    assert (k + m) % n == r by {
      if k + m < n { ModSmall(k + m, n); } else { DivModUnique(k + m, n, 1, r); }
    }
  }

  // What the samples of a buffer give at the frequency `m`: its bin `m` and the mirrored one.

  function PeakRe(p: nat, b: seq<real>): int -> real { k => Times(p as real, WholeRe(p, b, k)) }

  function PeakIm(p: nat, b: seq<real>, sign: real): int -> real { k => Times(sign * p as real, WholeIm(p, b, k)) }

  /** Term `k` is zero but for two peaks. */
  ghost predicate Peaks(f: int -> real, at: int, x: int -> real, at': int, y: int -> real, k: int) {
    f(k) == When(k == at, x(k)) + When(k == at', y(k))
  }

  function Only(at: int, x: int -> real): int -> real { k => if k == at then x(k) else 0.0 }

  lemma OnlySum(n: nat, at: int, x: int -> real)
    requires 0 <= at < n
    ensures Sum(0, n, Only(at, x)) == x(at)
  {
    forall k | k != at ensures Only(at, x)(k) == 0.0 {}
    SumSingle(0, n, at, Only(at, x));
  }

  lemma SumPeaks(n: nat, f: int -> real, at: int, x: int -> real, at': int, y: int -> real)
    requires 0 <= at < n && 0 <= at' < n && forall k | 0 <= k < n :: Peaks(f, at, x, at', y, k)
    ensures Sum(0, n, f) == x(at) + y(at')
  {
    forall k | 0 <= k < n ensures f(k) == Only(at, x)(k) + Only(at', y)(k) { assert Peaks(f, at, x, at', y, k); }
    SumAdded(0, n, f, Only(at, x), Only(at', y));
    OnlySum(n, at, x);
    OnlySum(n, at', y);
  }

  lemma BackTwice(tw: int -> Complex, p: nat, b: seq<real>, m: int)
    requires 0 < p && Twiddles(tw, 2 * p) && 0 <= m < 2 * p
    ensures BinRe(tw, 2 * p, Backward(tw, p, b), m) == PeakRe(p, b)(m) + PeakRe(p, b)(Mirrored(2 * p, m))
    ensures BinIm(tw, 2 * p, Backward(tw, p, b), m) == PeakIm(p, b, 1.0)(m) + PeakIm(p, b, -1.0)(Mirrored(2 * p, m))
  {
    var n, m' := 2 * p, Mirrored(2 * p, m);
    var re, im := BackColumns(tw, p, b, Cosine(tw, m)), BackColumns(tw, p, b, Sine(tw, m));
    forall k | 0 <= k < n
      ensures Peaks(re, m, PeakRe(p, b), m', PeakRe(p, b), k)
      ensures Peaks(im, m, PeakIm(p, b, 1.0), m', PeakIm(p, b, -1.0), k)
    {
      BackColumnRe(tw, p, b, k, m);
      BackColumnIm(tw, p, b, k, m);
    }
    SumPeaks(n, re, m, PeakRe(p, b), m', PeakRe(p, b));
    SumPeaks(n, im, m, PeakIm(p, b, 1.0), m', PeakIm(p, b, -1.0));
    BinTimes(tw, n, Backward(tw, p, b), m);
    BackAgainst(tw, p, b, Cosine(tw, m));
    BackAgainst(tw, p, b, Sine(tw, m));
  }

  /** The terms of a buffer transformed back and weighed with `e`. */
  function BackGrid(tw: int -> Complex, p: nat, b: seq<real>, e: int -> real): (int, int) -> real {
    (j, k) => Times(e(j), BackTerm(tw, p, b, j)(k))
  }

  /** Its columns: what bin `k` contributes. */
  function BackColumns(tw: int -> Complex, p: nat, b: seq<real>, e: int -> real): int -> real {
    k => Times(WholeRe(p, b, k), Sum(0, 2 * p, Product(Cosine(tw, k), e)))
       + Times(WholeIm(p, b, k), Sum(0, 2 * p, Product(Sine(tw, k), e)))
  }

  lemma BackAgainst(tw: int -> Complex, p: nat, b: seq<real>, e: int -> real)
    ensures Sum(0, 2 * p, Termwise(Backward(tw, p, b), e)) == Sum(0, 2 * p, BackColumns(tw, p, b, e))
  {
    var n, g, u := 2 * p, BackGrid(tw, p, b, e), Backward(tw, p, b);
    assert Sum(0, n, Termwise(u, e)) == Sum(0, n, RowSums(0, n, g)) by {
      forall j | 0 <= j < n ensures Termwise(u, e)(j) == RowSums(0, n, g)(j) { GridRow(tw, p, b, e, j); }
      SumCongruent(0, n, Termwise(u, e), RowSums(0, n, g));
    }
    SumExchange(0, n, 0, n, g);
    assert Sum(0, n, ColSums(0, n, g)) == Sum(0, n, BackColumns(tw, p, b, e)) by {
      forall k | 0 <= k < n ensures ColSums(0, n, g)(k) == BackColumns(tw, p, b, e)(k) { GridColumn(tw, p, b, e, k); }
      SumCongruent(0, n, ColSums(0, n, g), BackColumns(tw, p, b, e));
    }
  }

  lemma GridRow(tw: int -> Complex, p: nat, b: seq<real>, e: int -> real, j: int)
    requires 0 <= j < 2 * p
    ensures Sum(0, 2 * p, Row(BackGrid(tw, p, b, e), j)) == Termwise(Backward(tw, p, b), e)(j)
  {
    SumTimes(0, 2 * p, Row(BackGrid(tw, p, b, e), j), e(j), BackTerm(tw, p, b, j));
  }

  lemma GridColumn(tw: int -> Complex, p: nat, b: seq<real>, e: int -> real, k: int)
    ensures Sum(0, 2 * p, Col(BackGrid(tw, p, b, e), k)) == BackColumns(tw, p, b, e)(k)
  {
    var col, c, s := Col(BackGrid(tw, p, b, e), k), Product(Cosine(tw, k), e), Product(Sine(tw, k), e);
    var x, y := WholeRe(p, b, k), WholeIm(p, b, k);
    forall j ensures col(j) == Multiple(x, c)(j) + Multiple(y, s)(j) { GridEntry(tw, p, b, e, j, k); }
    SumAdded(0, 2 * p, col, Multiple(x, c), Multiple(y, s));
    SumTimes(0, 2 * p, Multiple(x, c), x, c);
    SumTimes(0, 2 * p, Multiple(y, s), y, s);
  }

  lemma GridEntry(tw: int -> Complex, p: nat, b: seq<real>, e: int -> real, j: int, k: int)
    ensures Col(BackGrid(tw, p, b, e), k)(j)
         == Times(WholeRe(p, b, k), Product(Cosine(tw, k), e)(j)) + Times(WholeIm(p, b, k), Product(Sine(tw, k), e)(j))
  {
    var x, c, y, s := WholeRe(p, b, k), tw(j * k).re, WholeIm(p, b, k), tw(j * k).im;
    assert BackTerm(tw, p, b, j)(k) == x * c + y * s;
    assert Product(Cosine(tw, k), e)(j) == c * e(j) && Product(Sine(tw, k), e)(j) == s * e(j);
    Spread(e(j), x, c, y, s);
  }

  lemma Spread(e: real, x: real, c: real, y: real, s: real)
    ensures Times(e, x * c + y * s) == Times(x, c * e) + Times(y, s * e)
  {}

  lemma BackColumnRe(tw: int -> Complex, p: nat, b: seq<real>, k: int, m: int)
    requires 0 < p && Twiddles(tw, 2 * p) && 0 <= k < 2 * p && 0 <= m < 2 * p
    ensures Peaks(BackColumns(tw, p, b, Cosine(tw, m)), m, PeakRe(p, b), Mirrored(2 * p, m), PeakRe(p, b), k)
  {
    Overlaps(tw, 2 * p, k, m);
    TwoPeaks(WholeRe(p, b, k), 0.5 * (2 * p) as real, p as real, k == m, k == Mirrored(2 * p, m));
    TimesSum(WholeIm(p, b, k), 0.0, 0.0);
  }

  lemma BackColumnIm(tw: int -> Complex, p: nat, b: seq<real>, k: int, m: int)
    requires 0 < p && Twiddles(tw, 2 * p) && 0 <= k < 2 * p && 0 <= m < 2 * p
    ensures Peaks(BackColumns(tw, p, b, Sine(tw, m)), m, PeakIm(p, b, 1.0), Mirrored(2 * p, m), PeakIm(p, b, -1.0), k)
  {
    Overlaps(tw, 2 * p, k, m);
    TwoPeaks(WholeIm(p, b, k), 0.5 * (2 * p) as real, p as real, k == m, k == Mirrored(2 * p, m));
    TimesSum(WholeRe(p, b, k), 0.0, 0.0);
  }

  lemma TwoPeaks(x: real, half: real, p: real, same: bool, mirror: bool)
    requires half == p
    ensures Times(x, When(same, half) + When(mirror, half)) == When(same, Times(p, x)) + When(mirror, Times(p, x))
    ensures Times(x, When(same, half) - When(mirror, half))
            == When(same, Times(1.0 * p, x)) + When(mirror, Times(-1.0 * p, x))
  {}

  lemma BinScaled(tw: int -> Complex, n: nat, a: real, v: seq<real>, m: int)
    ensures BinRe(tw, n, Scaled(a, v), m) == Times(a, BinRe(tw, n, v, m))
    ensures BinIm(tw, n, Scaled(a, v), m) == Times(a, BinIm(tw, n, v, m))
  {
    var u := Scaled(a, v);
    forall j ensures TermRe(tw, u, m)(j) == Times(a, TermRe(tw, v, m)(j)) { Regroup(a, At(v, j), tw(j * m).re); }
    forall j ensures TermIm(tw, u, m)(j) == Times(a, TermIm(tw, v, m)(j)) { Regroup(a, At(v, j), tw(j * m).im); }
    SumTimes(0, n, TermRe(tw, u, m), a, TermRe(tw, v, m));
    SumTimes(0, n, TermIm(tw, u, m), a, TermIm(tw, v, m));
  }

  lemma Regroup(a: real, x: real, c: real)
    ensures Times(a, x) * c == Times(a, x * c)
    ensures 0.0 * c == Times(a, 0.0 * c)
  {}

  /** The bins of the packed half, and their mirror images. */
  lemma MirroredBin(p: nat, b: seq<real>, m: int)
    requires 0 <= m <= p && Clean(p, b)
    ensures WholeRe(p, b, m) == WholeRe(p, b, Mirrored(2 * p, m)) == b[2 * m]
    ensures WholeIm(p, b, m) == b[2 * m + 1] == -WholeIm(p, b, Mirrored(2 * p, m))
  {}

  lemma RecoveredBin(tw: int -> Complex, p: nat, b: seq<real>, m: int)
    requires 0 < p && Twiddles(tw, 2 * p) && 0 <= m <= p && Clean(p, b)
    ensures BinRe(tw, 2 * p, Recovered(tw, p, b), m) == b[2 * m]
    ensures BinIm(tw, 2 * p, Recovered(tw, p, b), m) == b[2 * m + 1]
  {
    BinScaled(tw, 2 * p, 1.0 / (2 * p) as real, Backward(tw, p, b), m);
    BackTwice(tw, p, b, m);
    MirroredBin(p, b, m);
    TwiceOver(p as real, (2 * p) as real, b[2 * m]);
    TwiceOver(p as real, (2 * p) as real, b[2 * m + 1]);
  }

  lemma TwiceOver(p: real, n: real, x: real)
    requires 0.0 < p && n == p + p
    ensures Times(1.0 / n, Times(p, x) + Times(p, x)) == x
    ensures Times(1.0 / n, Times(1.0 * p, x) + Times(-1.0 * p, -x)) == x
  {
    assert Times(p, x) + Times(p, x) == n * x && Times(1.0 * p, x) + Times(-1.0 * p, -x) == n * x;
    assert (1.0 / n) * (n * x) == ((1.0 / n) * n) * x;
  }

  /** Every buffer is, apart from the two floats, the spectrum of the signal it stands for. */
  lemma ForwardRecovered(tw: int -> Complex, p: nat, b: seq<real>)
    requires 0 < p && Twiddles(tw, 2 * p) && |b| == 2 * p + 2
    ensures Forward(tw, p, Recovered(tw, p, b)) == Cleaned(p, b)
  {
    var clean, u := Cleaned(p, b), Recovered(tw, p, b);
    BackwardCleaned(tw, p, b);
    assert u == Recovered(tw, p, clean);
    var f := Forward(tw, p, u);
    forall i | 0 <= i < 2 * p + 2 ensures f[i] == clean[i] {
      var m := i / 2;
      RecoveredBin(tw, p, clean, m);
      ForwardBin(tw, p, u, m);
      assert i == 2 * m || i == 2 * m + 1;
    }
  }

  /** The spectrum of a signal stands for that signal. */
  lemma RecoveredForward(tw: int -> Complex, p: nat, u: seq<real>)
    requires 0 < p && Twiddles(tw, 2 * p) && |u| == 2 * p
    ensures Recovered(tw, p, Forward(tw, p, u)) == u
  {
    var n := (2 * p) as real;
    InversionAll(tw, p, u);
    forall j | 0 <= j < 2 * p ensures Times(1.0 / n, Times(n, u[j])) == u[j] { UnTimes(n, u[j]); }
  }

  lemma UnTimes(n: real, x: real)
    requires n != 0.0
    ensures Times(1.0 / n, Times(n, x)) == x
  {
    assert (1.0 / n) * (n * x) == ((1.0 / n) * n) * x;
  }

  /** A buffer stands for silence exactly when all its floats but the two are zero. */
  lemma RecoveredSilence(tw: int -> Complex, p: nat, b: seq<real>)
    requires 0 < p && Twiddles(tw, 2 * p) && |b| == 2 * p + 2
    ensures (forall j | 0 <= j < 2 * p :: At(Recovered(tw, p, b), j) == 0.0)
       <==> forall i | 0 <= i < 2 * p + 2 :: Cleaned(p, b)[i] == 0.0
  {
    var u, c := Recovered(tw, p, b), Cleaned(p, b);
    if forall j | 0 <= j < 2 * p :: At(u, j) == 0.0 {
      ForwardRecovered(tw, p, b);
      forall k ensures BinRe(tw, 2 * p, u, k) == 0.0 == BinIm(tw, 2 * p, u, k) { BinZero(tw, 2 * p, u, k); }
    }
    if forall i | 0 <= i < 2 * p + 2 :: c[i] == 0.0 {
      BackwardCleaned(tw, p, b);
      forall j | 0 <= j < 2 * p ensures Backward(tw, p, c)[j] == 0.0 { BackwardZero(tw, p, c, j); }
    }
  }

  lemma BackwardZero(tw: int -> Complex, p: nat, b: seq<real>, j: nat)
    requires j < 2 * p && forall i | 0 <= i < |b| :: b[i] == 0.0
    ensures Backward(tw, p, b)[j] == 0.0
  {
    forall k | 0 <= k < 2 * p ensures BackTerm(tw, p, b, j)(k) == 0.0 { SilentBin(p, b, k); }
    SumZero(0, 2 * p, BackTerm(tw, p, b, j));
  }

  lemma SilentBin(p: nat, b: seq<real>, k: int)
    requires forall i | 0 <= i < |b| :: b[i] == 0.0
    ensures WholeRe(p, b, k) == 0.0 == WholeIm(p, b, k)
  {}
}
