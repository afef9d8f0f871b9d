/** Iterated function music: a serie of notes scaled, transposed and reversed at random, forever. */
module IfsMusic {
  import opened Summation

  const MAX := 16

  /** What function `k` does: scale the intervals, transpose, and play backwards if `retrograde` is -1. */
  datatype Fn = Fn(scale: real, transpose: real, retrograde: int)

  // What the functions do to a serie.

  function Scaled(x: seq<real>, s: real): (r: seq<real>)
    requires |x| > 0
    ensures |r| == |x|
  {
    seq(|x|, i requires 0 <= i < |x| => if i == 0 then x[0] else Times(s, x[i] - x[0]) + x[0])
  }

  function Transposed(x: seq<real>, t: real): (r: seq<real>)
    ensures |r| == |x|
  {
    seq(|x|, i requires 0 <= i < |x| => x[i] + t)
  }

  function Reversed(x: seq<real>): (r: seq<real>)
    ensures |r| == |x|
  {
    seq(|x|, i requires 0 <= i < |x| => x[|x| - 1 - i])
  }

  function Applied(x: seq<real>, f: Fn): (r: seq<real>)
    requires |x| > 0
    ensures |r| == |x|
  {
    var y := Transposed(Scaled(x, f.scale), f.transpose);
    if f.retrograde == -1 then Reversed(y) else y
  }

  /** The serie after applying the functions `fs` one after the other. */
  function Serie(x: seq<real>, fs: seq<Fn>): (r: seq<real>)
    requires |x| > 0
    ensures |r| == |x|
  {
    if fs == [] then x else Applied(Serie(x, fs[..|fs| - 1]), fs[|fs| - 1])
  }

  function Product(fs: seq<Fn>): real {
    if fs == [] then 1.0 else Times(Product(fs[..|fs| - 1]), fs[|fs| - 1].scale)
  }

  function Retrogrades(fs: seq<Fn>): nat {
    if fs == [] then 0 else Retrogrades(fs[..|fs| - 1]) + if fs[|fs| - 1].retrograde == -1 then 1 else 0
  }

  /** Place `i` of `n`, counted from the end after an odd number of reversals. */
  function Mirror(n: nat, turns: nat, i: int): int { if turns % 2 == 0 then i else n - 1 - i }

  lemma TimesAssociates(a: real, b: real, c: real)
    ensures Times(b, Times(a, c)) == Times(Times(a, b), c)
  {}

  lemma AppliedInterval(x: seq<real>, f: Fn, i: nat, j: nat)
    requires i < |x| && j < |x|
    ensures var n, q := |x|, if f.retrograde == -1 then 1 else 0;
            Applied(x, f)[i] - Applied(x, f)[j] == Times(f.scale, x[Mirror(n, q, i)] - x[Mirror(n, q, j)])
  {
    var q := if f.retrograde == -1 then 1 else 0;
    var i', j' := Mirror(|x|, q, i), Mirror(|x|, q, j);
    var y := Scaled(x, f.scale);
    assert Applied(x, f)[i] - Applied(x, f)[j] == y[i'] - y[j'];
    ScaledFrom(x, f.scale, i');
    ScaledFrom(x, f.scale, j');
    TimesSum(f.scale, x[j'] - x[0], x[i'] - x[j']);
    assert (x[j'] - x[0]) + (x[i'] - x[j']) == x[i'] - x[0];
  }

  lemma ScaledFrom(x: seq<real>, s: real, i: nat)
    requires i < |x|
    ensures Scaled(x, s)[i] == Times(s, x[i] - x[0]) + x[0]
  {
    TimesSum(s, 0.0, 0.0);
  }

  lemma MirrorTwice(n: nat, q: nat, r: nat, i: int)
    requires q <= 1
    ensures Mirror(n, r, Mirror(n, q, i)) == Mirror(n, r + q, i)
  {}

  /** The interval of `y` between places `i` and `j` is `product` times that of `x`, mirrored by `r` reversals. */
  ghost predicate Spans(x: seq<real>, y: seq<real>, product: real, r: nat, i: nat, j: nat) {
    i < |x| == |y| && j < |x| && y[i] - y[j] == Times(product, x[Mirror(|x|, r, i)] - x[Mirror(|x|, r, j)])
  }

  /** Every interval is the product of all scale factors times the original one, in mirrored places after an odd
      number of reversals. */
  lemma {:induction false} IntervalLaw(x: seq<real>, fs: seq<Fn>, i: nat, j: nat)
    requires i < |x| && j < |x|
    ensures Spans(x, Serie(x, fs), Product(fs), Retrogrades(fs), i, j)
  {
    if fs == [] {
      SpansItself(x, i, j);
    } else {
      var rest, f, n := fs[..|fs| - 1], fs[|fs| - 1], |x|;
      var q := if f.retrograde == -1 then 1 else 0;
      IntervalLaw(x, rest, Mirror(n, q, i), Mirror(n, q, j));
      IntervalStep(x, Serie(x, rest), f, Product(rest), Retrogrades(rest), q, i, j);
    }
  }

  lemma SpansItself(x: seq<real>, i: nat, j: nat)
    requires i < |x| && j < |x|
    ensures Spans(x, x, 1.0, 0, i, j)
  {}

  lemma IntervalStep(x: seq<real>, y: seq<real>, f: Fn, product: real, r: nat, q: nat, i: nat, j: nat)
    requires i < |x| && j < |x| == |y| && q == if f.retrograde == -1 then 1 else 0
    requires Spans(x, y, product, r, Mirror(|x|, q, i), Mirror(|x|, q, j))
    ensures Spans(x, Applied(y, f), Times(product, f.scale), r + q, i, j)
  {
    var n := |x|;
    AppliedInterval(y, f, i, j);
    MirrorTwice(n, q, r, i);
    MirrorTwice(n, q, r, j);
    TimesAssociates(product, f.scale, x[Mirror(n, r + q, i)] - x[Mirror(n, r + q, j)]);
  }

  // At what pitch.

  /** The first note is transposed, and played last if the function reverses. */
  lemma FirstNote(x: seq<real>, f: Fn)
    requires |x| > 0
    ensures Applied(x, f)[if f.retrograde == -1 then |x| - 1 else 0] == x[0] + f.transpose
  {
    ScaledFrom(x, f.scale, 0);
    TimesSum(f.scale, 0.0, 0.0);
  }

  /** The pitch that the first note of the run has come to. */
  function Level(x: seq<real>, fs: seq<Fn>): real
    requires |x| > 0
  {
    if fs == [] then x[0]
    else
      var rest, f := fs[..|fs| - 1], fs[|fs| - 1];
      Level(x, rest) + f.transpose
      + if Retrogrades(rest) % 2 == 0 then 0.0
        else Times(Product(rest), x[|x| - 1] - x[0]) - Times(Product(fs), x[|x| - 1] - x[0])
  }

  /** Without reversals a run transposes by the sum of all transpositions. */
  lemma {:induction false} LevelRises(x: seq<real>, fs: seq<Fn>)
    requires |x| > 0 && forall i | 0 <= i < |fs| :: fs[i].retrograde != -1
    ensures Retrogrades(fs) == 0 && Level(x, fs) == x[0] + Sum(0, |fs|, Transpositions(fs))
  {
    if fs != [] {
      var rest := fs[..|fs| - 1];
      LevelRises(x, rest);
      SumCongruent(0, |rest|, Transpositions(rest), Transpositions(fs));
    }
  }

  function Transpositions(fs: seq<Fn>): int -> real { i => if 0 <= i < |fs| then fs[i].transpose else 0.0 }

  lemma {:induction false} LevelKept(x: seq<real>, fs: seq<Fn>)
    requires |x| > 0
    ensures Serie(x, fs)[Mirror(|x|, Retrogrades(fs), 0)] == Level(x, fs)
  {
    if fs != [] {
      var rest, f := fs[..|fs| - 1], fs[|fs| - 1];
      LevelKept(x, rest);
      IntervalLaw(x, rest, Mirror(|x|, Retrogrades(rest), 0), 0);
      LevelMoved(x, Serie(x, rest), f, Product(rest), Retrogrades(rest));
    }
  }

  lemma LevelMoved(x: seq<real>, y: seq<real>, f: Fn, product: real, r: nat)
    requires |x| > 0 && Spans(x, y, product, r, Mirror(|x|, r, 0), 0)
    ensures var n, q := |x|, if f.retrograde == -1 then 1 else 0;
            Applied(y, f)[Mirror(n, r + q, 0)]
            == y[Mirror(n, r, 0)] + f.transpose
             + if r % 2 == 0 then 0.0
               else Times(product, x[n - 1] - x[0]) - Times(Times(product, f.scale), x[n - 1] - x[0])
  {
    var n, q := |x|, if f.retrograde == -1 then 1 else 0;
    var i, first := Mirror(n, r + q, 0), if q == 1 then n - 1 else 0;
    FirstNote(y, f);
    AppliedInterval(y, f, i, first);
    MirrorBack(n, r, q);
    LevelStep(f.scale, product, y[0], f.transpose, y[Mirror(n, r, 0)], Applied(y, f)[i], x[0], x[n - 1], r % 2 == 0);
  }

  lemma MirrorBack(n: nat, r: nat, q: nat)
    requires n > 0 && q <= 1
    ensures Mirror(n, q, Mirror(n, r + q, 0)) == Mirror(n, r, 0)
    ensures Mirror(n, q, if q == 1 then n - 1 else 0) == 0
    ensures Mirror(n, r, Mirror(n, r, 0)) == 0 && Mirror(n, r, 0) == if r % 2 == 0 then 0 else n - 1
  {}

  lemma LevelStep(s: real, p: real, pivot: real, t: real, was: real, now: real, first: real, last: real, even: bool)
    requires now - (pivot + t) == Times(s, was - pivot)
    requires if even then was == pivot else was - pivot == Times(p, first - last)
    ensures now == was + t + if even then 0.0 else Times(p, last - first) - Times(Times(p, s), last - first)
  {
    TimesSum(s, 0.0, 0.0);
    if !even {
      assert Times(s, was - pivot) == -Times(Times(p, s), last - first);
      assert was - pivot == -Times(p, last - first);
    }
  }

  /** Every note of every serie. */
  lemma SerieNote(x: seq<real>, fs: seq<Fn>, i: nat)
    requires i < |x|
    ensures Serie(x, fs)[i] == Level(x, fs) + Times(Product(fs), x[Mirror(|x|, Retrogrades(fs), i)] - x[0])
  {
    LevelKept(x, fs);
    assert 0 <= Mirror(|x|, Retrogrades(fs), 0) < |x|;
    IntervalLaw(x, fs, i, Mirror(|x|, Retrogrades(fs), 0));
    SpanNote(x, Serie(x, fs), Product(fs), Retrogrades(fs), i, Level(x, fs));
  }

  lemma SpanNote(x: seq<real>, y: seq<real>, product: real, r: nat, i: nat, level: real)
    requires |x| == |y| > 0 && Spans(x, y, product, r, i, Mirror(|x|, r, 0)) && y[Mirror(|x|, r, 0)] == level
    ensures i < |x| && y[i] == level + Times(product, x[Mirror(|x|, r, i)] - x[0])
  {
    MirrorBack(|x|, r, 0);
  }

  // Choosing a function.

  /** A threshold; if the weights add up to zero, scaling them gives what floating-point division by zero gives. */
  datatype Bound = Number(x: real) | PlusInfinity | MinusInfinity | NotANumber

  /** The comparison `r > b`. */
  predicate Exceeds(r: real, b: Bound) {
    match b
    case Number(x) => r > x
    case MinusInfinity => true
    case PlusInfinity => false
    case NotANumber => false
  }

  /** No draw up to 1 exceeds `b`. */
  predicate Stops(b: Bound) { b.PlusInfinity? || b.NotANumber? || (b.Number? && b.x >= 1.0) }

  function Inverse(x: real): real
    requires x != 0.0
  {
    1.0 / x
  }

  /** The product of `sum` and the inverse of zero. */
  function Overflow(sum: real): Bound {
    if sum > 0.0 then PlusInfinity else if sum < 0.0 then MinusInfinity else NotANumber
  }

  /** A running sum of weights, scaled if the total is not 1. */
  function Threshold(sum: real, total: real): Bound {
    if total == 1.0 then Number(sum) else if total == 0.0 then Overflow(sum) else Number(Times(Inverse(total), sum))
  }

  /** The thresholds made from the weights. */
  function Thresholds(ws: seq<real>): (p: seq<Bound>)
    ensures |p| == |ws|
  {
    seq(|ws|, i requires 0 <= i < |ws| => Threshold(Total(ws, i + 1), Total(ws, |ws|)))
  }

  lemma AreThresholds(p: seq<Bound>, ws: seq<real>)
    requires |p| == |ws| && forall j | 0 <= j < |ws| :: p[j] == Threshold(Total(ws, j + 1), Total(ws, |ws|))
    ensures p == Thresholds(ws)
  {}

  lemma InverseTimes(x: real)
    requires x != 0.0
    ensures Times(Inverse(x), x) == 1.0
  {}

  lemma LastThreshold(ws: seq<real>)
    requires ws != []
    ensures Stops(Thresholds(ws)[|ws| - 1])
  {
    var total := Total(ws, |ws|);
    if total != 0.0 { InverseTimes(total); }
  }

  /** The share of draws that choose function `k` is its share of the weights. */
  lemma ThresholdWidth(ws: seq<real>, k: nat)
    requires Total(ws, |ws|) != 0.0 && k < |ws|
    ensures var p := Thresholds(ws);
            && p[k].Number? && (k > 0 ==> p[k - 1].Number?)
            && p[k].x - (if k == 0 then 0.0 else p[k - 1].x) == Times(Inverse(Total(ws, |ws|)), ws[k])
  {
    var p, total := Thresholds(ws), Total(ws, |ws|);
    assert p[k] == Threshold(Total(ws, k + 1), total) && (k > 0 ==> p[k - 1] == Threshold(Total(ws, k), total));
    WidthOf(Total(ws, k + 1), Total(ws, k), ws[k], total);
  }

  lemma WidthOf(hi: real, lo: real, w: real, total: real)
    requires total != 0.0 && hi - lo == w
    ensures Threshold(hi, total).Number? && Threshold(lo, total).Number?
    ensures Threshold(hi, total).x - Threshold(lo, total).x == Times(Inverse(total), w)
    ensures lo == 0.0 ==> Threshold(lo, total).x == 0.0
  {
    TimesSum(Inverse(total), lo, w);
    TimesSum(Inverse(total), 0.0, 0.0);
    if total == 1.0 { OneTimes(w); }
  }

  lemma OneTimes(w: real)
    ensures Times(Inverse(1.0), w) == w
  {}

  /** The first function whose threshold the draw does not exceed. */
  function Choice(p: seq<Bound>, r: real): (k: nat)
    ensures k <= |p| && (k < |p| ==> !Exceeds(r, p[k])) && forall j | 0 <= j < k :: Exceeds(r, p[j])
  {
    if p == [] || !Exceeds(r, p[0]) then 0 else 1 + Choice(p[1..], r)
  }

  lemma ChoiceStops(p: seq<Bound>, r: real)
    requires p != [] && Stops(p[|p| - 1]) && r <= 1.0
    ensures Choice(p, r) < |p|
  {}

  /** Whatever the weights, negative or adding up to zero, every draw up to 1 chooses one of the functions. */
  lemma ChoiceInRange(ws: seq<real>, r: real)
    requires ws != [] && r <= 1.0
    ensures Choice(Thresholds(ws), r) < |ws|
  {
    LastThreshold(ws);
    ChoiceStops(Thresholds(ws), r);
  }

  /** With weights that add up to zero the draw does not matter: the first running sum that is not negative decides. */
  lemma ZeroSumChoice(ws: seq<real>, r: real)
    requires ws != [] && Total(ws, |ws|) == 0.0 && r <= 1.0
    ensures var k := Choice(Thresholds(ws), r);
            k < |ws| && Total(ws, k + 1) >= 0.0 && forall j | 1 <= j <= k :: Total(ws, j) < 0.0
  {
    ChoiceInRange(ws, r);
    var p, k := Thresholds(ws), Choice(Thresholds(ws), r);
    assert p[k] == Overflow(Total(ws, k + 1));
    forall j | 1 <= j <= k ensures Total(ws, j) < 0.0 {
      assert p[j - 1] == Overflow(Total(ws, j)) && Exceeds(r, p[j - 1]);
    }
  }

  // The object.

  /** A float cast to an integer. */
  function Truncated(x: real): int { if x >= 0.0 then x.Floor else -(-x).Floor }

  function Weights(args: seq<real>): (ws: seq<real>)
    ensures |ws| == |args| / 4
  {
    seq(|args| / 4, i requires 0 <= i < |args| / 4 => args[i * 4 + 3])
  }

  /** The functions that a list of arguments describes. */
  function Fns(args: seq<real>): (fs: seq<Fn>)
    ensures |fs| == |args| / 4
  {
    seq(|args| / 4, i requires 0 <= i < |args| / 4 => Fn(args[i * 4], args[i * 4 + 1], Truncated(args[i * 4 + 2])))
  }

  /** The functions chosen by a series of draws. */
  function Chosen(fns: seq<Fn>, p: seq<Bound>, draws: seq<real>): (fs: seq<Fn>)
    requires |p| == |fns| > 0 && Stops(p[|p| - 1]) && forall i | 0 <= i < |draws| :: draws[i] <= 1.0
    ensures |fs| == |draws|
  {
    seq(|draws|, i requires 0 <= i < |draws| => fns[Choice(p, draws[i])])
  }

  const PLAIN := [Fn(1.0, 0.0, 1), Fn(1.0, 0.0, 1), Fn(1.0, 0.0, 1)]

  const THIRDS := [Number(1.0 / 3.0), Number(2.0 / 3.0), Number(3.0 / 3.0)]

  /** At first every function leaves a serie as it is, and each is chosen as often. */
  lemma PlainKeeps(x: seq<real>, k: nat)
    requires |x| > 0 && k < 3
    ensures Applied(x, PLAIN[k]) == x && |PLAIN| == 3
    ensures Thresholds([1.0, 1.0, 1.0]) == THIRDS
  {
    forall i | 0 <= i < |x| ensures Applied(x, PLAIN[k])[i] == x[i] { TimesOne(x[i] - x[0]); }
    var ws := [1.0, 1.0, 1.0];
    assert Total(ws, 1) == Total(ws, 0) + 1.0 && Total(ws, 2) == Total(ws, 1) + 1.0
      && Total(ws, 3) == Total(ws, 2) + 1.0;
    assert Times(Inverse(3.0), 1.0) == 1.0 / 3.0 && Times(Inverse(3.0), 2.0) == 2.0 / 3.0;
    assert Times(Inverse(3.0), 3.0) == 1.0;
  }

  lemma TimesOne(x: real)
    ensures Times(1.0, x) == x
  {}

  /** The arguments that describe functions: scale, transposition, reversal and weight of each, one after the other. */
  function Described(fs: seq<Fn>, ws: seq<real>): (args: seq<real>)
    requires |fs| == |ws|
    ensures |args| == 4 * |fs|
  {
    if fs == [] then []
    else [fs[0].scale, fs[0].transpose, fs[0].retrograde as real, ws[0]] + Described(fs[1..], ws[1..])
  }

  lemma {:induction false} DescribedAt(fs: seq<Fn>, ws: seq<real>, k: nat)
    requires k < |fs| == |ws|
    ensures var args := Described(fs, ws);
            args[k * 4..k * 4 + 4] == [fs[k].scale, fs[k].transpose, fs[k].retrograde as real, ws[k]]
  {
    if k > 0 {
      DescribedAt(fs[1..], ws[1..], k - 1);
      var rest := Described(fs[1..], ws[1..]);
      assert Described(fs, ws)[4..] == rest;
      assert rest[(k - 1) * 4..(k - 1) * 4 + 4] == Described(fs, ws)[k * 4..k * 4 + 4];
    }
  }

  lemma WholeTruncated(n: int)
    ensures Truncated(n as real) == n
  {
    if n < 0 { assert -(n as real) == (-n) as real; }
  }

  /** What is described is what is read. */
  lemma DescribedRead(fs: seq<Fn>, ws: seq<real>)
    requires |fs| == |ws|
    ensures Fns(Described(fs, ws)) == fs && Weights(Described(fs, ws)) == ws
  {
    var args := Described(fs, ws);
    forall k | 0 <= k < |fs| ensures Fns(args)[k] == fs[k] && Weights(args)[k] == ws[k] {
      DescribedAt(fs, ws, k);
      var part := args[k * 4..k * 4 + 4];
      assert part[0] == args[k * 4] && part[1] == args[k * 4 + 1] && part[2] == args[k * 4 + 2]
        && part[3] == args[k * 4 + 3];
      assert Weights(args)[k] == args[k * 4 + 3];
      WholeTruncated(fs[k].retrograde);
    }
  }

  /** Casting rounds towards zero. */
  lemma TruncatedTowardsZero(x: real)
    ensures if x >= 0.0 then Truncated(x) as real <= x < Truncated(x) as real + 1.0
            else Truncated(x) as real - 1.0 < x <= Truncated(x) as real
  {}

  /** The functions and thresholds in use after `args` were set; fewer than four arguments change nothing. */
  function FnsAfter(args: seq<real>, fns: seq<Fn>): seq<Fn> { if |args| < 4 then fns else Fns(args) }

  function ThresholdsAfter(args: seq<real>, p: seq<Bound>): seq<Bound> {
    if |args| < 4 then p else Thresholds(Weights(args))
  }

  /** Setting described functions puts them in use with thresholds from their weights; setting none changes nothing. */
  lemma DescribedUsed(fs: seq<Fn>, ws: seq<real>, fns: seq<Fn>, p: seq<Bound>, few: seq<real>)
    requires |fs| == |ws| && |few| <= 3
    ensures FnsAfter(Described(fs, ws), fns) == if fs == [] then fns else fs
    ensures ThresholdsAfter(Described(fs, ws), p) == if fs == [] then p else Thresholds(ws)
    ensures FnsAfter(few, fns) == fns && ThresholdsAfter(few, p) == p
  {
    DescribedRead(fs, ws);
  }

  class Music {
    const note: array<real>
    var nr_notes: nat
    var fns: seq<Fn>
    var P: seq<Bound>
    var count: nat

    ghost predicate Valid()
      reads this
    {
      && 1 <= nr_notes <= note.Length == MAX && count < nr_notes
      && |P| == |fns| > 0 && Stops(P[|P| - 1])
    }

    ghost function Notes(): (x: seq<real>)
      requires nr_notes <= note.Length
      reads this, note
    {
      note[..nr_notes]
    }

    constructor (notes: seq<real>)
      requires 1 <= |notes| <= MAX
      ensures Valid() && fresh(note) && Notes() == notes && count == 0
      ensures fns == PLAIN && P == THIRDS
    {
      note := new real[MAX](i requires 0 <= i < MAX => if i < |notes| then notes[i] else 0.0);
      nr_notes, count := |notes|, 0;
      fns := PLAIN;
      P := THIRDS;
    }

    /** Sets new functions, four numbers each: scale, transposition, reversal and weight. */
    method SetFunctions(args: seq<real>)
      requires Valid() && |args| / 4 <= MAX
      modifies this`fns, this`P
      ensures Valid() && fns == FnsAfter(args, old(fns)) && P == ThresholdsAfter(args, old(P))
    {
      if |args| >= 4 {
        ghost var ws := Weights(args);
        var p := ReadFunctions(args, ws);
        if p != 1.0 {
          ScaleThresholds(p, ws);
        }
        AreThresholds(P, ws);
        LastThreshold(ws);
      }
    }

    method ReadFunctions(args: seq<real>, ghost ws: seq<real>) returns (p: real)
      requires ws == Weights(args)
      modifies this`fns, this`P
      ensures fns == Fns(args) && p == Total(ws, |ws|)
      ensures |P| == |ws| && forall j | 0 <= j < |ws| :: P[j] == Number(Total(ws, j + 1))
    {
      var n, i := |args| / 4, 0;
      p := 0.0;
      fns, P := [], [];
      while i < n
        invariant 0 <= i <= n && |fns| == |P| == i && p == Total(ws, i)
        invariant forall j | 0 <= j < i :: fns[j] == Fns(args)[j] && P[j] == Number(Total(ws, j + 1))
      {
        fns := fns + [Fn(args[i * 4], args[i * 4 + 1], Truncated(args[i * 4 + 2]))];
        p := p + args[i * 4 + 3];
        P := P + [Number(p)];
        i := i + 1;
      }
    }

    method ScaleThresholds(total: real, ghost ws: seq<real>)
      requires total != 1.0 && |P| == |ws| && forall j | 0 <= j < |ws| :: P[j] == Number(Total(ws, j + 1))
      modifies this`P
      ensures |P| == |ws| && forall j | 0 <= j < |ws| :: P[j] == Threshold(Total(ws, j + 1), total)
    {
      var i := 0;
      while i < |P|
        invariant 0 <= i <= |P| == |ws|
        invariant forall j | 0 <= j < i :: P[j] == Threshold(Total(ws, j + 1), total)
        invariant forall j | i <= j < |ws| :: P[j] == Number(Total(ws, j + 1))
      {
        P := P[i := if total == 0.0 then Overflow(P[i].x) else Number(Times(Inverse(total), P[i].x))];
        i := i + 1;
      }
    }

    method ScaleAll(s: real)
      requires 1 <= nr_notes <= note.Length
      modifies note
      ensures Notes() == Scaled(old(Notes()), s)
    {
      var i := 1;
      while i < nr_notes
        invariant 1 <= i <= nr_notes
        invariant forall j | 0 <= j < i :: note[j] == Scaled(old(Notes()), s)[j]
        invariant forall j | i <= j < nr_notes :: note[j] == old(note[j])
      {
        note[i] := Times(s, note[i] - note[0]) + note[0];
        i := i + 1;
      }
    }

    method TransposeAll(t: real)
      requires 1 <= nr_notes <= note.Length
      modifies note
      ensures Notes() == Transposed(old(Notes()), t)
    {
      var i := 0;
      while i < nr_notes
        invariant 0 <= i <= nr_notes
        invariant forall j | 0 <= j < i :: note[j] == old(note[j]) + t
        invariant forall j | i <= j < nr_notes :: note[j] == old(note[j])
      {
        note[i] := note[i] + t;
        i := i + 1;
      }
    }

    method ReverseAll()
      requires 1 <= nr_notes <= note.Length
      modifies note
      ensures Notes() == Reversed(old(Notes()))
    {
      ghost var was := Notes();
      var noten := new real[nr_notes];
      var i := 0;
      while i < nr_notes
        invariant 0 <= i <= nr_notes && Notes() == was
        invariant forall j | nr_notes - i <= j < nr_notes :: noten[j] == was[nr_notes - 1 - j]
      {
        noten[nr_notes - 1 - i] := note[i];
        i := i + 1;
      }
      i := 0;
      while i < nr_notes
        invariant 0 <= i <= nr_notes
        invariant forall j | 0 <= j < nr_notes :: noten[j] == Reversed(was)[j]
        invariant forall j | 0 <= j < i :: note[j] == Reversed(was)[j]
      {
        note[i] := noten[i];
        i := i + 1;
      }
    }

    /** At the end of a serie the draw `r` chooses the function that makes the next. */
    method NextSerie(r: real)
      requires 1 <= nr_notes <= note.Length == MAX && count <= nr_notes && |P| == |fns| > 0 && Stops(P[|P| - 1])
               && r <= 1.0
      modifies this`count, note
      ensures Valid()
      ensures old(count) != nr_notes ==> count == old(count) && Notes() == old(Notes())
      ensures old(count) == nr_notes
              ==> count == 0 && Choice(P, r) < |fns| && Notes() == Applied(old(Notes()), fns[Choice(P, r)])
    {
      if count == nr_notes {
        var k := 0;
        count := 0;
        while Exceeds(r, P[k])
          invariant 0 <= k < |P| && forall j | 0 <= j < k :: Exceeds(r, P[j])
          decreases |P| - k
        {
          k := k + 1;
        }
        assert k == Choice(P, r);
        ScaleAll(fns[k].scale);
        TransposeAll(fns[k].transpose);
        if fns[k].retrograde == -1 {
          ReverseAll();
        }
      }
    }

    /** Outputs the next note. */
    method Bang(r: real) returns (out: real)
      requires Valid() && r <= 1.0
      modifies this`count, note
      ensures Valid() && out == old(Notes())[old(count)]
      ensures old(count) + 1 < nr_notes ==> count == old(count) + 1 && Notes() == old(Notes())
      ensures old(count) + 1 == nr_notes
              ==> count == 0 && Choice(P, r) < |fns| && Notes() == Applied(old(Notes()), fns[Choice(P, r)])
    {
      out := note[count];
      count := count + 1;
      NextSerie(r);
    }

    /** Outputs a whole serie. */
    method OutputSerie(r: real) returns (out: seq<real>)
      requires Valid() && r <= 1.0
      modifies this`count, note
      ensures Valid() && out == old(Notes())
      ensures count == 0 && Choice(P, r) < |fns| && Notes() == Applied(old(Notes()), fns[Choice(P, r)])
    {
      out := note[..nr_notes];
      count := nr_notes;
      NextSerie(r);
    }
  }

  // Whole runs.

  /** Serie `q` of a run. */
  ghost function Played(notes: seq<real>, fns: seq<Fn>, p: seq<Bound>, draws: seq<real>, q: nat): (r: seq<real>)
    requires |notes| > 0 && q <= |draws|
    requires |p| == |fns| > 0 && Stops(p[|p| - 1]) && forall i | 0 <= i < |draws| :: draws[i] <= 1.0
  {
    Serie(notes, Chosen(fns, p, draws[..q]))
  }

  lemma PlayedNext(notes: seq<real>, fns: seq<Fn>, p: seq<Bound>, draws: seq<real>, q: nat)
    requires |notes| > 0 && q < |draws|
    requires |p| == |fns| > 0 && Stops(p[|p| - 1]) && forall i | 0 <= i < |draws| :: draws[i] <= 1.0
    ensures Played(notes, fns, p, draws, q + 1) == Applied(Played(notes, fns, p, draws, q), fns[Choice(p, draws[q])])
  {
    ChosenNext(fns, p, draws, q);
    SerieNext(notes, Chosen(fns, p, draws[..q]), fns[Choice(p, draws[q])]);
  }

  lemma ChosenNext(fns: seq<Fn>, p: seq<Bound>, draws: seq<real>, q: nat)
    requires q < |draws|
    requires |p| == |fns| > 0 && Stops(p[|p| - 1]) && forall i | 0 <= i < |draws| :: draws[i] <= 1.0
    ensures Chosen(fns, p, draws[..q + 1]) == Chosen(fns, p, draws[..q]) + [fns[Choice(p, draws[q])]]
  {}

  lemma SerieNext(x: seq<real>, fs: seq<Fn>, f: Fn)
    requires |x| > 0
    ensures Serie(x, fs + [f]) == Applied(Serie(x, fs), f)
  {
    assert (fs + [f])[..|fs|] == fs;
  }

  /** A run of bangs plays serie after serie; the draw `draws[q]` is made at the end of serie `q`. */
  method Play(notes: seq<real>, args: seq<real>, draws: seq<real>) returns (out: seq<seq<real>>)
    requires 1 <= |notes| <= 16 && |args| / 4 <= 16 && forall i | 0 <= i < |draws| :: draws[i] <= 1.0
    ensures var fns, p := FnsAfter(args, PLAIN), ThresholdsAfter(args, THIRDS);
            && |p| == |fns| > 0 && Stops(p[|p| - 1]) && |out| == |draws|
            && forall q | 0 <= q < |out| :: out[q] == Played(notes, fns, p, draws, q)
  {
    var x := new Music(notes);
    x.SetFunctions(args);
    out := PlayOn(x, draws);
  }

  /** Serie after serie from the current one on. */
  method PlayOn(x: Music, draws: seq<real>) returns (out: seq<seq<real>>)
    requires x.Valid() && x.count == 0 && forall i | 0 <= i < |draws| :: draws[i] <= 1.0
    modifies x`count, x.note
    ensures |out| == |draws| && forall q | 0 <= q < |out| :: out[q] == Played(old(x.Notes()), x.fns, x.P, draws, q)
  {
    ghost var notes := x.Notes();
    out := [];
    while |out| < |draws|
      invariant |out| <= |draws| && x.Valid() && x.count == 0
      invariant forall q | q == |out| :: x.Notes() == Played(notes, x.fns, x.P, draws, q)
      invariant forall q | 0 <= q < |out| :: out[q] == Played(notes, x.fns, x.P, draws, q)
    {
      var serie := PlayNext(x, draws, |out|, notes);
      out := out + [serie];
    }
  }

  method PlayNext(x: Music, draws: seq<real>, q: nat, ghost notes: seq<real>) returns (serie: seq<real>)
    requires x.Valid() && x.count == 0 && |notes| > 0 && q < |draws| && forall i | 0 <= i < |draws| :: draws[i] <= 1.0
    requires x.Notes() == Played(notes, x.fns, x.P, draws, q)
    modifies x`count, x.note
    ensures x.Valid() && x.count == 0 && serie == Played(notes, x.fns, x.P, draws, q)
    ensures x.Notes() == Played(notes, x.fns, x.P, draws, q + 1)
  {
    PlayedNext(notes, x.fns, x.P, draws, q);
    serie := PlaySerie(x, draws[q]);
  }

  /** One bang per note. */
  method PlaySerie(x: Music, r: real) returns (out: seq<real>)
    requires x.Valid() && x.count == 0 && r <= 1.0
    modifies x`count, x.note
    ensures x.Valid() && x.count == 0 && out == old(x.Notes())
    ensures Choice(x.P, r) < |x.fns| && x.Notes() == Applied(old(x.Notes()), x.fns[Choice(x.P, r)])
  {
    out := [];
    ghost var notes := x.Notes();
    while |out| + 1 < x.nr_notes
      invariant x.Valid() && x.count == |out| < x.nr_notes && x.Notes() == notes && out == notes[..|out|]
    {
      var n := x.Bang(r);
      out := out + [n];
    }
    var n := x.Bang(r);
    out := out + [n];
  }
}
