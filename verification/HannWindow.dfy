/** The window of `pvoc~`, and what it does to frames that are left as read. */
module HannWindow {
  import opened Arithmetic
  import opened Summation
  import opened RootsOfUnity
  import opened PackedBuffers
  import opened OverlapAdd

  /** The window over `n` samples, from the table of powers of a primitive `n`-th root of unity. */
  function Hann(tw: int -> Complex, n: nat): (w: seq<real>)
    ensures |w| == n
  {
    seq(n, i => 0.5 * (1.0 - tw(i).re))
  }

  /** The overlapped squares of the window at the offset `r` behind the start of a frame. */
  function HannSum(tw: int -> Complex, hop: nat, overlap: nat, r: int): real {
    Sum(0, overlap, Squares(Hann(tw, overlap * hop), hop, r))
  }

  lemma UnitCircle(tw: int -> Complex, n: nat, i: int)
    requires Twiddles(tw, n)
    ensures NormSq(tw(i)) == 1.0
  {
    assert AddLaw(tw, i, -i) && NegLaw(tw, i) && TurnLaw(tw, n, 0);
    assert i + -i == 0 * n;
  }

  /** The square of the window by its first two harmonics. */
  lemma HannSquare(tw: int -> Complex, n: nat, i: int)
    requires Twiddles(tw, n) && 0 <= i < n
    ensures SquareAt(Hann(tw, n), i) == 0.375 + (-0.5 * tw(i).re + 0.125 * tw(2 * i).re)
  {
    UnitCircle(tw, n, i);
    assert AddLaw(tw, i, i);
    DoubleAngle(tw(i), tw(2 * i));
  }

  lemma DoubleAngle(z: Complex, z2: Complex)
    requires NormSq(z) == 1.0 && z2 == Mul(z, z)
    ensures 0.5 * (1.0 - z.re) * (0.5 * (1.0 - z.re)) == 0.375 + (-0.5 * z.re + 0.125 * z2.re)
  {}

  // Samples that lie a hop apart run round a circle of their own.

  function Stepped(tw: int -> Complex, hop: nat): int -> Complex { d => tw(hop * d) }

  lemma SteppedTwiddles(tw: int -> Complex, hop: nat, overlap: nat)
    requires 0 < hop && 0 < overlap && Twiddles(tw, overlap * hop)
    ensures Twiddles(Stepped(tw, hop), overlap)
  {
    var step := Stepped(tw, hop);
    forall a, b ensures AddLaw(step, a, b) {
      assert AddLaw(tw, hop * a, hop * b);
      assert hop * (a + b) == hop * a + hop * b;
    }
    forall e ensures NegLaw(step, e) {
      assert NegLaw(tw, hop * e);
      assert hop * -e == -(hop * e);
    }
    forall k ensures TurnLaw(step, overlap, k) {
      assert TurnLaw(tw, overlap * hop, k);
      assert hop * (k * overlap) == k * (overlap * hop);
    }
    forall d ensures OrderLaw(step, overlap, d) {
      assert OrderLaw(tw, overlap * hop, hop * d);
      if (hop * d) % (overlap * hop) == 0 { CancelFactor(d, overlap, hop); }
    }
  }

  lemma CancelFactor(d: int, n: int, m: int)
    requires 0 < n && 0 < m && 0 < n * m && (m * d) % (n * m) == 0
    ensures d % n == 0
  {
    var q := m * d / (n * m);
    assert m * d == q * (n * m);
    assert m * (d - q * n) == 0;
    assert d == q * n + 0;
    DivModUnique(d, n, q, 0);
  }

  /** Harmonic `e` of the window at the samples that lie a hop apart. */
  function Harmonic(tw: int -> Complex, hop: nat, e: int, r: int): int -> real { q => tw(e * (r + q * hop)).re }

  /** Over all overlapping frames a harmonic cancels, unless it is the same in all of them. */
  lemma HarmonicCancels(tw: int -> Complex, hop: nat, overlap: nat, e: int, r: int)
    requires 0 < hop && 0 < overlap && Twiddles(tw, overlap * hop) && e % overlap != 0
    ensures Sum(0, overlap, Harmonic(tw, hop, e, r)) == 0.0
  {
    var step, z := Stepped(tw, hop), tw(e * r);
    SteppedTwiddles(tw, hop, overlap);
    Orthogonality(step, overlap, e);
    OrthogonalityIm(step, overlap, e);
    var c, s := PartRe(step, e), PartIm(step, e);
    forall q ensures Turned(Harmonic(tw, hop, e, r), z, c, s, q) { HarmonicTurned(tw, hop, overlap * hop, e, r, q); }
    SumTurned(overlap, Harmonic(tw, hop, e, r), z, c, s);
  }

  ghost predicate Turned(f: int -> real, z: Complex, c: int -> real, s: int -> real, q: int) {
    f(q) == Times(z.re, c(q)) + Times(-z.im, s(q))
  }

  lemma HarmonicTurned(tw: int -> Complex, hop: nat, n: nat, e: int, r: int, q: int)
    requires Twiddles(tw, n)
    ensures var step := Stepped(tw, hop);
            Turned(Harmonic(tw, hop, e, r), tw(e * r), PartRe(step, e), PartIm(step, e), q)
  {
    assert e * (r + q * hop) == e * r + hop * (e * q);
    assert AddLaw(tw, e * r, hop * (e * q));
  }

  lemma SumTurned(n: nat, f: int -> real, z: Complex, c: int -> real, s: int -> real)
    requires forall q | 0 <= q < n :: Turned(f, z, c, s, q)
    requires Sum(0, n, c) == 0.0 == Sum(0, n, s)
    ensures Sum(0, n, f) == 0.0
  {
    forall q | 0 <= q < n ensures f(q) == Multiple(z.re, c)(q) + Multiple(-z.im, s)(q) { assert Turned(f, z, c, s, q); }
    SumAdded(0, n, f, Multiple(z.re, c), Multiple(-z.im, s));
    SumTimes(0, n, Multiple(z.re, c), z.re, c);
    SumTimes(0, n, Multiple(-z.im, s), -z.im, s);
    TimesSum(z.re, 0.0, 0.0);
    TimesSum(-z.im, 0.0, 0.0);
  }

  function Waves(tw: int -> Complex, hop: nat, r: int): int -> real {
    q => -0.5 * Harmonic(tw, hop, 1, r)(q) + 0.125 * Harmonic(tw, hop, 2, r)(q)
  }

  function Constant(x: real): int -> real { q => x }

  lemma {:induction false} SumConstant(n: nat, x: real)
    ensures Sum(0, n, Constant(x)) == n as real * x
  {
    if n > 0 { SumConstant(n - 1, x); }
  }

  lemma TapInside(hop: nat, overlap: nat, r: nat, q: nat)
    requires r < hop && q < overlap
    ensures 0 <= r + q * hop < overlap * hop
  {
    MulMonotone(q + 1, overlap, hop);
  }

  lemma HannTap(tw: int -> Complex, hop: nat, overlap: nat, r: nat, q: nat)
    requires Twiddles(tw, overlap * hop) && r < hop && q < overlap
    ensures Squares(Hann(tw, overlap * hop), hop, r)(q) == 0.375 + Waves(tw, hop, r)(q)
  {
    var i := r + q * hop;
    TapInside(hop, overlap, r, q);
    HannSquare(tw, overlap * hop, i);
    assert Harmonic(tw, hop, 1, r)(q) == tw(i).re by { assert 1 * (r + q * hop) == i; }
    assert Harmonic(tw, hop, 2, r)(q) == tw(2 * i).re;
    assert Squares(Hann(tw, overlap * hop), hop, r)(q) == SquareAt(Hann(tw, overlap * hop), i);
  }

  /** From three overlapping frames on, the squares add up to the same everywhere. */
  lemma HannFlat(tw: int -> Complex, hop: nat, overlap: nat, r: nat)
    requires 0 < hop && 3 <= overlap && Twiddles(tw, overlap * hop) && r < hop
    ensures HannSum(tw, hop, overlap, r) == 0.375 * overlap as real
  {
    var waves, squares := Waves(tw, hop, r), Squares(Hann(tw, overlap * hop), hop, r);
    forall q | 0 <= q < overlap ensures squares(q) == Constant(0.375)(q) + waves(q) { HannTap(tw, hop, overlap, r, q); }
    SumAdded(0, overlap, squares, Constant(0.375), waves);
    SumConstant(overlap, 0.375);
    WavesCancel(tw, hop, overlap, r);
  }

  lemma WavesCancel(tw: int -> Complex, hop: nat, overlap: nat, r: nat)
    requires 0 < hop && 3 <= overlap && Twiddles(tw, overlap * hop)
    ensures Sum(0, overlap, Waves(tw, hop, r)) == 0.0
  {
    ModSmall(1, overlap);
    ModSmall(2, overlap);
    HarmonicCancels(tw, hop, overlap, 1, r);
    HarmonicCancels(tw, hop, overlap, 2, r);
    SumLinear(0, overlap, Waves(tw, hop, r), -0.5, Harmonic(tw, hop, 1, r), 0.125, Harmonic(tw, hop, 2, r));
  }

  // One or two overlapping frames are too few.

  lemma Positive(x: real)
    requires x != 0.0
    ensures Times(x, x) > 0.0
  {
    if x > 0.0 {
      calc { Times(x, x); == x * x; > 0.0; }
    } else {
      calc { Times(x, x); == (0.0 - x) * (0.0 - x); > 0.0; }
    }
  }

  lemma OnCircle(z: Complex)
    requires NormSq(z) == 1.0
    ensures Times(z.re, z.re) + Times(z.im, z.im) == 1.0
  {}

  lemma Vanishes(a: real, x: real)
    requires a != 0.0 && a * x == 0.0
    ensures x == 0.0
  {}

  /** A root that is not 1 has a real part below 1. */
  lemma BelowOne(z: Complex)
    requires NormSq(z) == 1.0 && z != ONE
    ensures z.re != 1.0
  {
    if z.im != 0.0 {
      Positive(z.im);
      OnCircle(z);
      NotOne(z.re);
    }
  }

  lemma NotOne(x: real)
    requires Times(x, x) < 1.0
    ensures x != 1.0
  {}

  lemma HannAtStart(tw: int -> Complex, n: nat)
    requires 0 < n && Twiddles(tw, n)
    ensures SquareAt(Hann(tw, n), 0) == 0.0
  {
    assert TurnLaw(tw, n, 0) && 0 * n == 0;
  }

  lemma SquarePositive(w: seq<real>, i: nat)
    requires i < |w| && w[i] != 0.0
    ensures SquareAt(w, i) > 0.0
  {
    Positive(w[i]);
  }

  lemma HannInside(tw: int -> Complex, n: nat, i: int)
    requires Twiddles(tw, n) && 0 < i < n
    ensures SquareAt(Hann(tw, n), i) > 0.0
  {
    UnitCircle(tw, n, i);
    assert OrderLaw(tw, n, i);
    ModSmall(i, n);
    BelowOne(tw(i));
    SquarePositive(Hann(tw, n), i);
  }

  /** Half a turn apart the window is mirrored. */
  lemma HannHalf(tw: int -> Complex, hop: nat, r: nat)
    requires Twiddles(tw, 2 * hop) && r < hop
    ensures SquareAt(Hann(tw, 2 * hop), r) + SquareAt(Hann(tw, 2 * hop), r + hop)
            == 0.5 + 0.5 * Times(tw(r).re, tw(r).re)
  {
    var z := tw(hop);
    assert AddLaw(tw, hop, hop) && TurnLaw(tw, 2 * hop, 1) && hop + hop == 1 * (2 * hop);
    assert OrderLaw(tw, 2 * hop, hop);
    ModSmall(hop, 2 * hop);
    MinusOne(z);
    assert AddLaw(tw, r, hop);
    assert tw(r + hop).re == -tw(r).re;
    HalfSquares(tw(r).re);
  }

  lemma HalfSquares(c: real)
    ensures 0.5 * (1.0 - c) * (0.5 * (1.0 - c)) + 0.5 * (1.0 - -c) * (0.5 * (1.0 - -c)) == 0.5 + 0.5 * Times(c, c)
  {}

  lemma MinusOne(z: Complex)
    requires Mul(z, z) == ONE && z != ONE
    ensures z == Complex(-1.0, 0.0)
  {
    var a := z.re * z.re;
    assert a == 1.0 + z.im * z.im && z.re * z.im == 0.0;
    assert a * z.im == z.re * (z.re * z.im);
    if z.im != 0.0 { Positive(z.im); }
    Vanishes(a, z.im);
    assert (z.re - 1.0) * (z.re + 1.0) == 0.0;
    Vanishes(z.re - 1.0, z.re + 1.0);
  }

  lemma SquareNotOne(z: Complex)
    requires NormSq(z) == 1.0 && Mul(z, z) != ONE
    ensures Times(z.re, z.re) != 1.0
  {
    if z.im != 0.0 { Positive(z.im); }
  }

  /**
   The gain of `pvoc~` is the same at every sample exactly when at least three frames overlap; hops of
   one sample aside.
   */
  lemma HannFlatIff(tw: int -> Complex, hop: nat, overlap: nat)
    requires 0 < hop && 0 < overlap && Twiddles(tw, overlap * hop)
    ensures (forall r: nat | r < hop :: HannSum(tw, hop, overlap, r) == HannSum(tw, hop, overlap, 0))
       <==> 3 <= overlap || hop == 1
  {
    if 3 <= overlap {
      forall r: nat | r < hop ensures HannSum(tw, hop, overlap, r) == HannSum(tw, hop, overlap, 0) {
        HannFlat(tw, hop, overlap, r);
        HannFlat(tw, hop, overlap, 0);
      }
    } else if hop > 1 {
      HannUneven(tw, hop, overlap);
    }
  }

  lemma HannUneven(tw: int -> Complex, hop: nat, overlap: nat)
    requires 1 < hop && 1 <= overlap <= 2 && Twiddles(tw, overlap * hop)
    ensures HannSum(tw, hop, overlap, 1) != HannSum(tw, hop, overlap, 0)
  {
    if overlap == 1 { UnevenOne(tw, hop); } else { UnevenTwo(tw, hop); }
  }

  lemma UnevenOne(tw: int -> Complex, hop: nat)
    requires 1 < hop && Twiddles(tw, 1 * hop)
    ensures HannSum(tw, hop, 1, 1) != HannSum(tw, hop, 1, 0)
  {
    HannAtStart(tw, 1 * hop);
    HannInside(tw, 1 * hop, 1);
    OneSquare(Hann(tw, 1 * hop), hop, 0);
    OneSquare(Hann(tw, 1 * hop), hop, 1);
  }

  lemma UnevenTwo(tw: int -> Complex, hop: nat)
    requires 1 < hop && Twiddles(tw, 2 * hop)
    ensures HannSum(tw, hop, 2, 1) != HannSum(tw, hop, 2, 0)
  {
    TwoSquares(Hann(tw, 2 * hop), hop, 0);
    TwoSquares(Hann(tw, 2 * hop), hop, 1);
    HannHalf(tw, hop, 0);
    HannHalf(tw, hop, 1);
    FirstReal(tw, hop);
    assert tw(0) == ONE by { assert TurnLaw(tw, 2 * hop, 0) && 0 * (2 * hop) == 0; }
    assert Times(1.0, 1.0) == 1.0;
  }

  lemma OneSquare(w: seq<real>, hop: nat, r: int)
    ensures Sum(0, 1, Squares(w, hop, r)) == SquareAt(w, r)
  {
    assert Sum(0, 1, Squares(w, hop, r)) == Sum(0, 0, Squares(w, hop, r)) + Squares(w, hop, r)(0);
  }

  lemma TwoSquares(w: seq<real>, hop: nat, r: int)
    ensures Sum(0, 2, Squares(w, hop, r)) == SquareAt(w, r) + SquareAt(w, r + hop)
  {
    OneSquare(w, hop, r);
    assert Sum(0, 2, Squares(w, hop, r)) == Sum(0, 1, Squares(w, hop, r)) + Squares(w, hop, r)(1);
  }

  lemma FirstReal(tw: int -> Complex, hop: nat)
    requires 1 < hop && Twiddles(tw, 2 * hop)
    ensures Times(tw(1).re, tw(1).re) != 1.0
  {
    UnitCircle(tw, 2 * hop, 1);
    assert AddLaw(tw, 1, 1) && OrderLaw(tw, 2 * hop, 2);
    ModSmall(2, 2 * hop);
    SquareNotOne(tw(1));
  }

  /** With three or more overlapping frames, frames left as they were read give the source back, scaled. */
  lemma HannOutput(tw: int -> Complex, frames: seq<Frame>, hop: nat, overlap: nat, source: int -> real, t: nat)
    requires 0 < hop && 3 <= overlap && Twiddles(tw, overlap * hop)
    requires Unchanged(frames, hop, Hann(tw, overlap * hop), source) && (overlap - 1) * hop <= t < |frames| * hop
    ensures Mixed(frames, Hann(tw, overlap * hop), t) == Times(source(t), 0.375 * overlap as real)
  {
    UnchangedOutput(frames, hop, Hann(tw, overlap * hop), overlap, source, t);
    HannFlat(tw, hop, overlap, t % hop);
  }
}
