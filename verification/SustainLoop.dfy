/** The sustain loop: a position that wraps or turns back at the loop ends, against the phase that never does. */
module SustainLoop {
  import Summation


  // Arithmetic of whole lengths.

  lemma Scale(x: real, y: real, l: real)
    requires x <= y && l > 0.0
    ensures x * l <= y * l
  {}

  lemma StrictScale(x: real, y: real, l: real)
    requires x < y && l > 0.0
    ensures x * l < y * l
  {}

  /** `k` lengths. */
  function Laps(k: int, l: real): (r: real) { k as real * l }

  lemma LapsAdd(j: int, k: int, l: real)
    ensures Laps(j + k, l) == Laps(j, l) + Laps(k, l)
  {}

  lemma LapsOne(l: real)
    ensures Laps(0, l) == 0.0 && Laps(1, l) == l && Laps(-1, l) == 0.0 - l
  {}

  lemma LapsAtLeast(k: int, l: real)
    requires l > 0.0
    ensures k >= 1 ==> Laps(k, l) >= l
    ensures k <= -1 ==> Laps(k, l) <= 0.0 - l
  {}

  /** The number of whole lengths in `d`, rounded down. */
  function Lengths(d: real, l: real): (k: int)
    requires l > 0.0
    ensures Laps(k, l) <= d < Laps(k, l) + l
  {
    Bracket(d, l, d / l, (d / l).Floor);
    (d / l).Floor
  }

  lemma Bracket(d: real, l: real, q: real, k: int)
    requires l > 0.0 && q * l == d && k as real <= q < k as real + 1.0
    ensures Laps(k, l) <= d < Laps(k, l) + l
  {
    calc { Laps(k, l); k as real * l; <= { Scale(k as real, q, l); } q * l; d; }
    calc { d; q * l; < { StrictScale(q, (k + 1) as real, l); } (k + 1) as real * l; Laps(k + 1, l); }
    LapsAdd(k, 1, l);
    LapsOne(l);
  }

  // Wrapping.

  /** `w` is `x` taken down by `k` lengths of the loop, as few as bring it to `b` or below. */
  ghost predicate WrapOf(a: real, b: real, x: real, w: real, k: int) {
    k >= 0 && w == x - Laps(k, b - a) && w <= b && (k > 0 ==> a < w)
  }

  /** The phase `x` wrapped into the loop. */
  function Wrapped(a: real, b: real, x: real): (w: real)
    requires a < b
    ensures x <= b ==> w == x
    ensures x > b ==> a < w <= b
  {
    if x <= b then x
    else
      var k := -Lengths(b - x, b - a);
      WrappedIsWrap(a, b, x, k);
      x - Laps(k, b - a)
  }

  lemma WrappedIsWrap(a: real, b: real, x: real, k: int)
    requires a < b < x && k == -Lengths(b - x, b - a)
    ensures WrapOf(a, b, x, x - Laps(k, b - a), k)
  {
    var l := b - a;
    LapsAdd(k, -k, l);
    LapsOne(l);
    LapsAtLeast(-k, l);
  }

  lemma WrapUnique(a: real, b: real, x: real, w: real, k: int, w': real, k': int)
    requires a < b && WrapOf(a, b, x, w, k) && WrapOf(a, b, x, w', k')
    ensures w == w'
  {
    LapsAdd(k' - k, k, b - a);
    LapsAtLeast(k' - k, b - a);
    LapsOne(b - a);
  }

  lemma WrapIsWrapped(a: real, b: real, x: real, w: real, k: int)
    requires a < b && WrapOf(a, b, x, w, k)
    ensures w == Wrapped(a, b, x)
  {
    LapsOne(b - a);
    if x <= b {
      WrapUnique(a, b, x, w, k, x, 0);
    } else {
      var q := -Lengths(b - x, b - a);
      WrappedIsWrap(a, b, x, q);
      WrapUnique(a, b, x, w, k, x - Laps(q, b - a), q);
    }
  }

  // Folding.

  /** Going up, `w` is `x` less `k` round trips; going down it is the mirror image. */
  ghost predicate FoldOf(a: real, b: real, x: real, w: real, up: bool, k: int) {
    if up then w - a == (x - a) - Laps(k, 2.0 * (b - a)) else w - a == Laps(k, 2.0 * (b - a)) - (x - a)
  }

  /** The triangle wave between `a` and `b` at phase `x`. */
  function Triangle(a: real, b: real, x: real): (w: real)
    requires a < b
    ensures a <= w <= b
  {
    var m := (x - a) - Laps(Lengths(x - a, 2.0 * (b - a)), 2.0 * (b - a));
    if m <= b - a then a + m else a + (2.0 * (b - a) - m)
  }

  lemma TriangleIsFold(a: real, b: real, x: real) returns (up: bool, k: int)
    requires a < b
    ensures FoldOf(a, b, x, Triangle(a, b, x), up, k)
  {
    var l := 2.0 * (b - a);
    k := Lengths(x - a, l);
    up := (x - a) - Laps(k, l) <= b - a;
    if !up {
      LapsAdd(k, 1, l);
      LapsOne(l);
      k := k + 1;
    }
  }

  /** Only one point between `a` and `b` is a fold of `x`. */
  lemma FoldUnique(a: real, b: real, x: real, w: real, up: bool, k: int, w': real, up': bool, k': int)
    requires a < b && a <= w <= b && a <= w' <= b && FoldOf(a, b, x, w, up, k) && FoldOf(a, b, x, w', up', k')
    ensures w == w'
  {
    var l := 2.0 * (b - a);
    LapsAdd(k' - k, k, l);
    LapsAtLeast(k' - k, l);
    LapsAtLeast(k' - k - 1, l);
    LapsAtLeast(k' - k + 1, l);
    LapsAdd(k' - k - 1, 1, l);
    LapsAdd(k' - k, 1, l);
    LapsOne(l);
  }

  lemma FoldIsTriangle(a: real, b: real, x: real, w: real, up: bool, k: int)
    requires a < b && a <= w <= b && FoldOf(a, b, x, w, up, k)
    ensures w == Triangle(a, b, x)
  {
    var up', k' := TriangleIsFold(a, b, x);
    FoldUnique(a, b, x, w, up, k, Triangle(a, b, x), up', k');
  }

  // The object.

  /** The phase after the first `i` steps from `x`: the position if there were no loop. */
  function Phase(x: real, steps: seq<real>, i: nat): real
    requires i <= |steps|
  {
    if i == 0 then x else Phase(x, steps, i - 1) + steps[i - 1]
  }

  /** A position that may have passed the end by at most a loop. */
  ghost predicate Ahead(a: real, b: real, x: real, p: real, k: int) {
    k >= 0 && p == x - Laps(k, b - a) && p <= b + (b - a) && (k > 0 ==> a < p)
  }

  /** A position that may have passed either end, in its direction, by at most a loop. */
  ghost predicate Astray(a: real, b: real, x: real, p: real, d: real, k: int) {
    && (d == 1.0 || d == -1.0) && FoldOf(a, b, x, p, d == 1.0, k)
    && (if d == 1.0 then a <= p <= b + (b - a) else a - (b - a) <= p <= b)
  }

  /** The position that a sample is output with, wrapping. */
  function Back(a: real, b: real, p: real): real { if p > b then a + (p - b) else p }

  /** The position before sample `i`, wrapping. */
  function Ran(a: real, b: real, p: real, steps: seq<real>, i: nat): real
    requires i <= |steps|
  {
    if i == 0 then p else Back(a, b, Ran(a, b, p, steps, i - 1)) + steps[i - 1]
  }

  /** Bringing a position back gives the wrapped phase, and a step keeps it in reach. */
  lemma ForwardStep(a: real, b: real, x: real, p: real, k: int, step: real) returns (k': int)
    requires a < b && Ahead(a, b, x, p, k) && 0.0 <= step <= b - a
    ensures Back(a, b, p) == Wrapped(a, b, x) && Ahead(a, b, x + step, Back(a, b, p) + step, k')
  {
    k' := if p > b then k + 1 else k;
    LapsAdd(k, 1, b - a);
    LapsOne(b - a);
    WrapIsWrapped(a, b, x, Back(a, b, p), k');
  }

  lemma ForwardStart(a: real, b: real, x: real, p: real, k: int)
    requires a < b && Ahead(a, b, x, p, k)
    ensures Back(a, b, p) == Wrapped(a, b, x)
  {
    var k' := ForwardStep(a, b, x, p, k, 0.0);
  }

  ghost predicate Small(a: real, b: real, steps: seq<real>) { forall i | 0 <= i < |steps| :: 0.0 <= steps[i] <= b - a }

  lemma {:induction false} RanAhead(a: real, b: real, p: real, steps: seq<real>, i: nat) returns (k: int)
    requires a < b && p <= b + (b - a) && i <= |steps| && Small(a, b, steps)
    ensures Ahead(a, b, Phase(p, steps, i), Ran(a, b, p, steps, i), k)
  {
    if i == 0 {
      k := 0;
      LapsOne(b - a);
    } else {
      k := RanAhead(a, b, p, steps, i - 1);
      k := ForwardStep(a, b, Phase(p, steps, i - 1), Ran(a, b, p, steps, i - 1), k, steps[i - 1]);
    }
  }

  /** Every forward sample is the wrapped phase. */
  lemma ForwardWraps(a: real, b: real, p: real, steps: seq<real>, i: nat)
    requires a < b && p <= b + (b - a) && i < |steps| && Small(a, b, steps)
    ensures Back(a, b, Ran(a, b, p, steps, i)) == Wrapped(a, b, Phase(p, steps, i))
  {
    var k := RanAhead(a, b, p, steps, i);
    ForwardStart(a, b, Phase(p, steps, i), Ran(a, b, p, steps, i), k);
  }

  datatype Swing = Swing(p: real, d: real)

  /** The position and direction that a sample is output with, turning at the ends. */
  function Turned(a: real, b: real, s: Swing): Swing {
    if s.p > b then Swing(b - (s.p - b), -1.0) else if s.p < a && s.d < 0.0 then Swing(a + (a - s.p), 1.0) else s
  }

  function Moved(s: Swing, step: real): Swing { Swing(s.p + s.d * step, s.d) }

  /** Position and direction before sample `i`, turning at the ends. */
  function Swung(a: real, b: real, s: Swing, steps: seq<real>, i: nat): Swing
    requires i <= |steps|
  {
    if i == 0 then s else Moved(Turned(a, b, Swung(a, b, s, steps, i - 1)), steps[i - 1])
  }

  lemma PingPongStep(a: real, b: real, x: real, s: Swing, k: int, step: real) returns (k': int)
    requires a < b && Astray(a, b, x, s.p, s.d, k) && 0.0 <= step <= b - a
    ensures Turned(a, b, s).p == Triangle(a, b, x)
    ensures var m := Moved(Turned(a, b, s), step);
            Astray(a, b, x + step, m.p, m.d, k')
  {
    var t := Turned(a, b, s);
    k' := if s.p > b then k + 1 else k;
    LapsAdd(k, 1, 2.0 * (b - a));
    LapsOne(2.0 * (b - a));
    FoldIsTriangle(a, b, x, t.p, t.d == 1.0, k');
    Signed(t.d, step);
  }

  lemma PingPongStart(a: real, b: real, x: real, s: Swing, k: int)
    requires a < b && Astray(a, b, x, s.p, s.d, k)
    ensures Turned(a, b, s).p == Triangle(a, b, x)
  {
    var k' := PingPongStep(a, b, x, s, k, 0.0);
  }

  lemma Signed(d: real, step: real)
    requires d == 1.0 || d == -1.0
    ensures d * step == if d == 1.0 then step else 0.0 - step
  {}

  lemma {:induction false} SwungAstray(a: real, b: real, p: real, steps: seq<real>, i: nat) returns (k: int)
    requires a < b && a <= p <= b + (b - a) && i <= |steps| && Small(a, b, steps)
    ensures var s := Swung(a, b, Swing(p, 1.0), steps, i);
            Astray(a, b, Phase(p, steps, i), s.p, s.d, k)
  {
    if i == 0 {
      k := 0;
      LapsOne(2.0 * (b - a));
    } else {
      k := SwungAstray(a, b, p, steps, i - 1);
      k := PingPongStep(a, b, Phase(p, steps, i - 1), Swung(a, b, Swing(p, 1.0), steps, i - 1), k, steps[i - 1]);
    }
  }

  /** Every ping-pong sample is the triangle wave at the phase. */
  lemma PingPongFolds(a: real, b: real, p: real, steps: seq<real>, i: nat)
    requires a < b && a <= p <= b + (b - a) && i < |steps| && Small(a, b, steps)
    ensures Turned(a, b, Swung(a, b, Swing(p, 1.0), steps, i)).p == Triangle(a, b, Phase(p, steps, i))
  {
    var k := SwungAstray(a, b, p, steps, i);
    PingPongStart(a, b, Phase(p, steps, i), Swung(a, b, Swing(p, 1.0), steps, i), k);
  }

  // The exact conditions on starts and steps.

  /** The first forward sample is the wrapped start exactly when the start is at most one loop past the end. */
  lemma ForwardStartIff(a: real, b: real, p: real)
    requires a < b
    ensures Back(a, b, p) == Wrapped(a, b, p) <==> p <= b + (b - a)
  {
    LapsOne(b - a);
    if p <= b + (b - a) { WrapIsWrapped(a, b, p, Back(a, b, p), if p > b then 1 else 0); }
  }

  /** After any output `w` of any phase `x`, a step `s` leads to the wrapped phase. */
  ghost predicate ForwardSafe(a: real, b: real, s: real)
    requires a < b
  {
    forall x, w, k | WrapOf(a, b, x, w, k) :: Back(a, b, w + s) == Wrapped(a, b, x + s)
  }

  /** Steps keep to the wrapped phase from every state exactly when they lie between 0 and the loop length. */
  lemma ForwardStepIff(a: real, b: real, s: real)
    requires a < b
    ensures ForwardSafe(a, b, s) <==> 0.0 <= s <= b - a
  {
    LapsOne(b - a);
    if 0.0 <= s <= b - a {
      forall x, w, k | WrapOf(a, b, x, w, k) ensures Back(a, b, w + s) == Wrapped(a, b, x + s) {
        ForwardStart(a, b, x + s, w + s, k);
      }
    } else if s > b - a {
      assert WrapOf(a, b, b, b, 0);
    } else {
      ForwardMisses(a, b, s, if -s < b - a then -s else b - a);
    }
  }

  /** A step back from just behind the loop start, once round the loop, is output below where the phase is. */
  lemma ForwardMisses(a: real, b: real, s: real, e: real)
    requires a < b && s < 0.0 < e <= b - a && e <= -s
    ensures WrapOf(a, b, b + e, a + e, 1)
    ensures Back(a, b, (a + e) + s) == a + e + s && Wrapped(a, b, (b + e) + s) == b + e + s
  {
    LapsOne(b - a);
  }

  /** The first ping-pong sample is the triangle wave at the start exactly when the start is in the loop or at most
      one loop past it. */
  lemma PingPongStartIff(a: real, b: real, p: real)
    requires a < b
    ensures Turned(a, b, Swing(p, 1.0)).p == Triangle(a, b, p) <==> a <= p <= b + (b - a)
  {
    LapsOne(2.0 * (b - a));
    if a <= p <= b + (b - a) { PingPongStart(a, b, p, Swing(p, 1.0), 0); }
  }

  /** A position in the loop with a direction that phase `x` can have there. */
  ghost predicate Swings(a: real, b: real, x: real, s: Swing, k: int) {
    (s.d == 1.0 || s.d == -1.0) && a <= s.p <= b && FoldOf(a, b, x, s.p, s.d == 1.0, k)
  }

  ghost predicate PingPongSafe(a: real, b: real, step: real)
    requires a < b
  {
    forall x, s, k | Swings(a, b, x, s, k) :: Turned(a, b, Moved(s, step)).p == Triangle(a, b, x + step)
  }

  /** Steps keep to the triangle wave from every state exactly when they lie between 0 and the loop length. */
  lemma PingPongStepIff(a: real, b: real, step: real)
    requires a < b
    ensures PingPongSafe(a, b, step) <==> 0.0 <= step <= b - a
  {
    LapsOne(2.0 * (b - a));
    if 0.0 <= step <= b - a {
      forall x, s, k | Swings(a, b, x, s, k) ensures Turned(a, b, Moved(s, step)).p == Triangle(a, b, x + step) {
        Signed(s.d, step);
        PingPongStart(a, b, x + step, Moved(s, step), k);
      }
    } else {
      var p := if step > b - a then b else a;
      assert Swings(a, b, p, Swing(p, 1.0), 0);
      Signed(1.0, step);
    }
  }

  /** A run with a step back: forward mode outputs -1/4 where the phase is 3/4, ping-pong mode leaves the loop at
      once. */
  lemma StepsBackMiss()
    ensures Back(0.0, 1.0, Ran(0.0, 1.0, 0.5, [0.75, -0.5], 2)) == -0.25
    ensures Phase(0.5, [0.75, -0.5], 2) == 0.75 == Wrapped(0.0, 1.0, 0.75)
    ensures Turned(0.0, 1.0, Swung(0.0, 1.0, Swing(0.25, 1.0), [-0.5], 1)).p == -0.25
  {
    assert Ran(0.0, 1.0, 0.5, [0.75, -0.5], 1) == 1.25;
    assert Phase(0.5, [0.75, -0.5], 1) == 1.25;
    Signed(1.0, -0.5);
  }

  // Splitting into blocks.

  lemma {:induction false} RanPrefix(a: real, b: real, p: real, s: seq<real>, t: seq<real>, i: nat)
    requires i <= |s|
    ensures Ran(a, b, p, s + t, i) == Ran(a, b, p, s, i)
  {
    if i > 0 { RanPrefix(a, b, p, s, t, i - 1); }
  }

  lemma {:induction false} RanConcat(a: real, b: real, p: real, s: seq<real>, t: seq<real>, i: nat)
    requires i <= |t|
    ensures Ran(a, b, p, s + t, |s| + i) == Ran(a, b, Ran(a, b, p, s, |s|), t, i)
  {
    if i == 0 { RanPrefix(a, b, p, s, t, |s|); } else { RanConcat(a, b, p, s, t, i - 1); }
  }

  lemma {:induction false} SwungPrefix(a: real, b: real, w: Swing, s: seq<real>, t: seq<real>, i: nat)
    requires i <= |s|
    ensures Swung(a, b, w, s + t, i) == Swung(a, b, w, s, i)
  {
    if i > 0 { SwungPrefix(a, b, w, s, t, i - 1); }
  }

  lemma {:induction false} SwungConcat(a: real, b: real, w: Swing, s: seq<real>, t: seq<real>, i: nat)
    requires i <= |t|
    ensures Swung(a, b, w, s + t, |s| + i) == Swung(a, b, Swung(a, b, w, s, |s|), t, i)
  {
    if i == 0 { SwungPrefix(a, b, w, s, t, |s|); } else { SwungConcat(a, b, w, s, t, i - 1); }
  }

  // The object.

  function StepOf(sr: real, pdsr: real): real
    requires pdsr != 0.0
  {
    sr / pdsr
  }

  /** The steps that sample rates `input` ask for. */
  function Steps(input: seq<real>, pdsr: real): (s: seq<real>)
    requires pdsr != 0.0
    ensures |s| == |input|
  {
    seq(|input|, i requires 0 <= i < |input| => StepOf(input[i], pdsr))
  }

  function Rates(input: seq<real>): int -> real { i => if 0 <= i < |input| then input[i] else 0.0 }

  /** The phase advances by the sum of the rates over the sample rate. */
  lemma {:induction false} PhaseOfRates(x: real, input: seq<real>, pdsr: real, t: nat)
    requires pdsr != 0.0 && t <= |input|
    ensures Summation.Times(pdsr, Phase(x, Steps(input, pdsr), t) - x) == Summation.Sum(0, t, Rates(input))
  {
    if t > 0 {
      var before, step := Phase(x, Steps(input, pdsr), t - 1), StepOf(input[t - 1], pdsr);
      PhaseOfRates(x, input, pdsr, t - 1);
      StepTimes(input[t - 1], pdsr);
      Summation.TimesSum(pdsr, before - x, step);
      assert Phase(x, Steps(input, pdsr), t) - x == (before - x) + step;
    } else {
      Summation.TimesSum(pdsr, 0.0, 0.0);
    }
  }

  lemma StepTimes(sr: real, pdsr: real)
    requires pdsr != 0.0
    ensures Summation.Times(pdsr, StepOf(sr, pdsr)) == sr
  {}

  class SusLoop {
    const pdsr: real  // sample rate
    const a: real     // loop start
    const b: real     // loop end
    const startpos: real
    var pos: real
    var direction: real

    constructor (pdsr: real, a: real, b: real, startpos: real)
      ensures this.pdsr == pdsr && this.a == a && this.b == b && this.startpos == startpos
    {
      this.pdsr, this.a, this.b, this.startpos := pdsr, a, b, startpos;
      pos, direction := 0.0, 1.0;
    }

    /** Starts over. */
    method Bang()
      modifies this
      ensures Swing(pos, direction) == Swing(startpos, 1.0)
    {
      pos := startpos;
      direction := 1.0;
    }

    method Forward(input: seq<real>) returns (out: seq<real>)
      requires pdsr != 0.0
      modifies this`pos
      ensures pos == Ran(a, b, old(pos), Steps(input, pdsr), |input|)
      ensures Looped(a, b, old(pos), Steps(input, pdsr), out)
    {
      ghost var steps, done := Steps(input, pdsr), [];
      out := [];
      var p := pos;
      while |out| < |input|
        invariant |out| == |done| <= |input| && done == steps[..|done|]
        invariant p == Ran(a, b, old(pos), done, |done|) && Looped(a, b, old(pos), done, out)
      {
        var step := StepOf(input[|out|], pdsr);
        ghost var was := p;
        if p > b {
          p := a + (p - b);
        }
        LoopedMore(a, b, old(pos), done, [step], out, [p]);
        assert Ran(a, b, was, [step], 1) == p + step;
        out := out + [p];
        p := p + step;
        done := done + [step];
      }
      pos := p;
      assert done == steps;
    }

    /** Turns back at either end. */
    method TurnAround(pos: real, direction: real) returns (p: real, d: real)
      ensures Swing(p, d) == Turned(a, b, Swing(pos, direction))
    {
      p, d := pos, direction;
      if p > b {
        p := b - (p - b);
        d := -1.0;
      } else if p < a && d < 0.0 {
        p := a + (a - p);
        d := 1.0;
      }
    }

    method PingPong(input: seq<real>) returns (out: seq<real>)
      requires pdsr != 0.0
      modifies this
      ensures Swing(pos, direction) == Swung(a, b, old(Swing(pos, direction)), Steps(input, pdsr), |input|)
      ensures Heard(a, b, old(Swing(pos, direction)), Steps(input, pdsr), out)
    {
      ghost var steps, start, done := Steps(input, pdsr), Swing(pos, direction), [];
      out := [];
      var p, d := pos, direction;
      while |out| < |input|
        invariant |out| == |done| <= |input| && done == steps[..|done|]
        invariant Swing(p, d) == Swung(a, b, start, done, |done|) && Heard(a, b, start, done, out)
      {
        var step := StepOf(input[|out|], pdsr);
        OneStep(a, b, Swing(p, d), step);
        p, d := TurnAround(p, d);
        HeardMore(a, b, start, done, [step], out, [p]);
        out := out + [p];
        p := Moved(Swing(p, d), step).p;
        done := done + [step];
      }
      pos := p;
      direction := d;
      assert done == steps;
    }
  }

  // Whole runs.

  function Flat(blocks: seq<seq<real>>): seq<real> {
    if blocks == [] then [] else Flat(blocks[..|blocks| - 1]) + blocks[|blocks| - 1]
  }

  lemma FlatNext(blocks: seq<seq<real>>, j: nat)
    requires j < |blocks|
    ensures Flat(blocks[..j + 1]) == Flat(blocks[..j]) + blocks[j]
  {
    assert blocks[..j + 1][..j] == blocks[..j];
  }

  lemma StepsConcat(s: seq<real>, t: seq<real>, pdsr: real)
    requires pdsr != 0.0
    ensures Steps(s + t, pdsr) == Steps(s, pdsr) + Steps(t, pdsr)
  {}

  /**
   A forward run from a bang, however the samples are split into blocks: the step recurrence for any
   start and any steps, and the wrapped phase where start and steps keep to it.
   */
  method LoopForward(pdsr: real, a: real, b: real, start: real, blocks: seq<seq<real>>) returns (out: seq<real>)
    requires pdsr != 0.0
    ensures |out| == |Flat(blocks)| && Looped(a, b, start, Steps(Flat(blocks), pdsr), out)
    ensures a < b && start <= b + (b - a) && Small(a, b, Steps(Flat(blocks), pdsr)) ==>
              forall t | 0 <= t < |out| :: out[t] == Wrapped(a, b, Phase(start, Steps(Flat(blocks), pdsr), t))
  {
    var x := new SusLoop(pdsr, a, b, start);
    x.Bang();
    out := ForwardBlocks(x, blocks);
    if a < b && start <= b + (b - a) && Small(a, b, Steps(Flat(blocks), pdsr)) {
      AllWrap(a, b, start, Steps(Flat(blocks), pdsr), out);
    }
  }

  lemma AllWrap(a: real, b: real, start: real, steps: seq<real>, out: seq<real>)
    requires a < b && start <= b + (b - a) && Small(a, b, steps) && Looped(a, b, start, steps, out)
    ensures forall t | 0 <= t < |out| :: out[t] == Wrapped(a, b, Phase(start, steps, t))
  {
    forall t | 0 <= t < |out| ensures out[t] == Wrapped(a, b, Phase(start, steps, t)) {
      ForwardWraps(a, b, start, steps, t);
    }
  }

  /** Block after block from the current position. */
  method ForwardBlocks(x: SusLoop, blocks: seq<seq<real>>) returns (out: seq<real>)
    requires x.pdsr != 0.0
    modifies x
    ensures Looped(x.a, x.b, old(x.pos), Steps(Flat(blocks), x.pdsr), out)
  {
    ghost var start, heard := x.pos, [];
    out := [];
    var j := 0;
    while j < |blocks|
      invariant 0 <= j <= |blocks| && heard == Flat(blocks[..j]) && Looped(x.a, x.b, start, Steps(heard, x.pdsr), out)
      invariant x.pos == Ran(x.a, x.b, start, Steps(heard, x.pdsr), |heard|)
    {
      FlatNext(blocks, j);
      var block := x.Forward(blocks[j]);
      LoopedMore(x.a, x.b, start, Steps(heard, x.pdsr), Steps(blocks[j], x.pdsr), out, block);
      StepsConcat(heard, blocks[j], x.pdsr);
      out := out + block;
      heard := heard + blocks[j];
      j := j + 1;
    }
    assert blocks[..j] == blocks;
  }

  /** `out` is what forward mode outputs for `steps` from position `p`. */
  ghost predicate Looped(a: real, b: real, p: real, steps: seq<real>, out: seq<real>) {
    |out| == |steps| && forall i | 0 <= i < |steps| :: out[i] == Back(a, b, Ran(a, b, p, steps, i))
  }

  lemma LoopedMore(a: real, b: real, p: real, u: seq<real>, v: seq<real>, out: seq<real>, block: seq<real>)
    requires Looped(a, b, p, u, out) && Looped(a, b, Ran(a, b, p, u, |u|), v, block)
    ensures Looped(a, b, p, u + v, out + block)
    ensures Ran(a, b, p, u + v, |u + v|) == Ran(a, b, Ran(a, b, p, u, |u|), v, |v|)
  {
    RanConcat(a, b, p, u, v, |v|);
    forall i | 0 <= i < |u + v| ensures (out + block)[i] == Back(a, b, Ran(a, b, p, u + v, i)) {
      if i < |u| { RanPrefix(a, b, p, u, v, i); } else { RanConcat(a, b, p, u, v, i - |u|); }
    }
  }

  /** `out` is what ping-pong mode outputs for `steps` from the state `w`. */
  ghost predicate Heard(a: real, b: real, w: Swing, steps: seq<real>, out: seq<real>) {
    |out| == |steps| && forall i | 0 <= i < |steps| :: out[i] == Turned(a, b, Swung(a, b, w, steps, i)).p
  }

  /** Block after block from the current state. */
  method PingPongBlocks(x: SusLoop, blocks: seq<seq<real>>) returns (out: seq<real>)
    requires x.pdsr != 0.0
    modifies x
    ensures Heard(x.a, x.b, old(Swing(x.pos, x.direction)), Steps(Flat(blocks), x.pdsr), out)
  {
    ghost var start, heard := Swing(x.pos, x.direction), [];
    out := [];
    var j := 0;
    while j < |blocks|
      invariant 0 <= j <= |blocks| && heard == Flat(blocks[..j]) && Heard(x.a, x.b, start, Steps(heard, x.pdsr), out)
      invariant Swing(x.pos, x.direction) == Swung(x.a, x.b, start, Steps(heard, x.pdsr), |heard|)
    {
      FlatNext(blocks, j);
      var block := x.PingPong(blocks[j]);
      HeardMore(x.a, x.b, start, Steps(heard, x.pdsr), Steps(blocks[j], x.pdsr), out, block);
      StepsConcat(heard, blocks[j], x.pdsr);
      out := out + block;
      heard := heard + blocks[j];
      j := j + 1;
    }
    assert blocks[..j] == blocks;
  }

  lemma OneStep(a: real, b: real, s: Swing, step: real)
    ensures Heard(a, b, s, [step], [Turned(a, b, s).p]) && Swung(a, b, s, [step], 1) == Moved(Turned(a, b, s), step)
  {
    assert Swung(a, b, s, [step], 0) == s;
  }

  lemma HeardMore(a: real, b: real, w: Swing, u: seq<real>, v: seq<real>, out: seq<real>, block: seq<real>)
    requires Heard(a, b, w, u, out) && Heard(a, b, Swung(a, b, w, u, |u|), v, block)
    ensures Heard(a, b, w, u + v, out + block)
    ensures Swung(a, b, w, u + v, |u + v|) == Swung(a, b, Swung(a, b, w, u, |u|), v, |v|)
  {
    SwungConcat(a, b, w, u, v, |v|);
    forall i | 0 <= i < |u + v| ensures (out + block)[i] == Turned(a, b, Swung(a, b, w, u + v, i)).p {
      if i < |u| { SwungPrefix(a, b, w, u, v, i); } else { SwungConcat(a, b, w, u, v, i - |u|); }
    }
  }

  /**
   A ping-pong run from a bang, however the samples are split into blocks: the step recurrence for any
   start and any steps, and the triangle wave where start and steps keep to it.
   */
  method LoopPingPong(pdsr: real, a: real, b: real, start: real, blocks: seq<seq<real>>) returns (out: seq<real>)
    requires pdsr != 0.0
    ensures |out| == |Flat(blocks)| && Heard(a, b, Swing(start, 1.0), Steps(Flat(blocks), pdsr), out)
    ensures a < b && a <= start <= b + (b - a) && Small(a, b, Steps(Flat(blocks), pdsr)) ==>
              forall t | 0 <= t < |out| :: out[t] == Triangle(a, b, Phase(start, Steps(Flat(blocks), pdsr), t))
  {
    var x := new SusLoop(pdsr, a, b, start);
    x.Bang();
    out := PingPongBlocks(x, blocks);
    if a < b && a <= start <= b + (b - a) && Small(a, b, Steps(Flat(blocks), pdsr)) {
      AllFold(a, b, start, Steps(Flat(blocks), pdsr), out);
    }
  }

  lemma AllFold(a: real, b: real, start: real, steps: seq<real>, out: seq<real>)
    requires a < b && a <= start <= b + (b - a) && Small(a, b, steps) && Heard(a, b, Swing(start, 1.0), steps, out)
    ensures forall t | 0 <= t < |out| :: out[t] == Triangle(a, b, Phase(start, steps, t))
  {
    forall t | 0 <= t < |out| ensures out[t] == Triangle(a, b, Phase(start, steps, t)) {
      PingPongFolds(a, b, start, steps, t);
    }
  }
}
