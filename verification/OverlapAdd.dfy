/** The output ring of the phase vocoder: frames added in, blocks read out, zeroed and passed by. */
module OverlapAdd {
  import opened Summation
  import opened Arithmetic

  /** An inverse transform and the output sample it starts at. */
  datatype Frame = Frame(start: nat, samples: seq<real>)

  /** A sample of an inverse transform, normalized and windowed. */
  function Weighted(x: real, size: nat, w: real): real
    requires 0 < size
  {
    x / size as real * w
  }

  /** Sample `i` of a frame, normalized and windowed; silence outside the frame. */
  function Shape(frame: Frame, window: seq<real>, i: int): real {
    if 0 <= i < |window| == |frame.samples| then Weighted(frame.samples[i], |window|, window[i]) else 0.0
  }

  /** What frame `f` adds to output sample `t`. */
  function Tap(frames: seq<Frame>, window: seq<real>, f: int, t: int): real {
    if 0 <= f < |frames| then Shape(frames[f], window, t - frames[f].start) else 0.0
  }

  function Taps(frames: seq<Frame>, window: seq<real>, t: int): int -> real { f => Tap(frames, window, f, t) }

  /** The sum of all frames at sample `t`. */
  function Mixed(frames: seq<Frame>, window: seq<real>, t: int): real { Sum(0, |frames|, Taps(frames, window, t)) }

  lemma MixedMore(frames: seq<Frame>, window: seq<real>, frame: Frame, t: int)
    ensures Mixed(frames + [frame], window, t) == Mixed(frames, window, t) + Shape(frame, window, t - frame.start)
  {
    SumCongruent(0, |frames|, Taps(frames + [frame], window, t), Taps(frames, window, t));
  }

  /** A frame does not reach samples before its start. */
  lemma MixedBefore(frames: seq<Frame>, window: seq<real>, more: seq<Frame>, t: int)
    requires forall f | 0 <= f < |more| :: t < more[f].start
    ensures Mixed(frames + more, window, t) == Mixed(frames, window, t)
  {
    var all := frames + more;
    SumSplit(0, |frames|, |all|, Taps(all, window, t));
    SumZero(|frames|, |all|, Taps(all, window, t));
    SumCongruent(0, |frames|, Taps(all, window, t), Taps(frames, window, t));
  }

  /** No frame reaches samples a whole frame behind its start. */
  lemma MixedBehind(frames: seq<Frame>, window: seq<real>, t: int)
    requires forall f | 0 <= f < |frames| :: frames[f].start + |window| <= t
    ensures Mixed(frames, window, t) == 0.0
  {
    SumZero(0, |frames|, Taps(frames, window, t));
  }

  // The ring.

  /** Slot `t % |ring|` holds `want(t)` for the `|ring|` samples from `from` on. */
  ghost predicate RingHolds(ring: seq<real>, from: int, want: int -> real) {
    |ring| > 0 && forall t | from <= t < from + |ring| :: ring[t % |ring|] == want(t)
  }

  lemma SlotsDistinct(t: int, u: int, n: int)
    requires 0 < n && u <= t < u + n && t % n == u % n
    ensures t == u
  {
    assert t == (t / n) * n + t % n && u == (u / n) * n + u % n;
    var d := t / n - u / n;
    assert t - u == d * n;
    if d >= 1 { MulAtLeast(d, n); } else if d <= -1 { MulAtMost(d, n); }
  }

  /** Changing one slot changes one sample of the window. */
  lemma RingSet(ring: seq<real>, from: int, want: int -> real, u: int, v: real, want': int -> real)
    requires RingHolds(ring, from, want) && from <= u < from + |ring| && want'(u) == v
    requires forall t | from <= t < from + |ring| && t != u :: want'(t) == want(t)
    ensures RingHolds(ring[u % |ring| := v], from, want')
  {
    var n := |ring|;
    forall t | from <= t < from + n ensures ring[u % n := v][t % n] == want'(t) {
      if t % n == u % n {
        if t <= u { SlotsDistinct(u, t, n); } else { SlotsDistinct(t, u, n); }
      }
    }
  }

  /** The slot that the window leaves is the one it enters. */
  lemma RingTurn(ring: seq<real>, from: int, want: int -> real)
    requires RingHolds(ring, from, want)
    ensures RingHolds(ring[from % |ring| := want(from + |ring|)], from + 1, want)
  {
    var n := |ring|;
    ModPlusMultiple(from, n, 1);
    forall t | from + 1 <= t < from + 1 + n ensures ring[from % n := want(from + n)][t % n] == want(t) {
      if t < from + n && t % n == from % n { SlotsDistinct(t, from, n); }
    }
  }

  /** Zeroing the slot that is passed is right if nothing is due there one turn later. */
  lemma ZeroTurn(ring: seq<real>, from: int, want: int -> real)
    requires RingHolds(ring, from, want) && want(from + |ring|) == 0.0
    ensures RingHolds(ring[from % |ring| := 0.0], from + 1, want)
  {
    RingTurn(ring, from, want);
  }

  function Switch(a: int -> real, b: int -> real, m: int): int -> real { t => if t < m then b(t) else a(t) }

  lemma AddStep(ring: seq<real>, from: int, i: nat, was: int -> real, now: int -> real, v: real)
    requires RingHolds(ring, from, Switch(was, now, from + i)) && i < |ring|
    requires ring[(from + i) % |ring|] == was(from + i) ==> v == now(from + i)
    ensures RingHolds(ring[(from + i) % |ring| := v], from, Switch(was, now, from + i + 1))
  {
    RingSet(ring, from, Switch(was, now, from + i), from + i, v, Switch(was, now, from + i + 1));
  }

  function Mix(frames: seq<Frame>, window: seq<real>): int -> real { t => Mixed(frames, window, t) }

  // The object.

  class Vocoder {
    const fftsize: nat
    const hopsize: nat
    const window: seq<real>
    const outbuf: array<real>
    var outbufpos: nat

    ghost var time: nat           // samples output so far
    ghost var frames: seq<Frame>  // frames added so far

    ghost predicate Sized()
      reads this`outbufpos, this`time
    {
      0 < hopsize <= fftsize == outbuf.Length == |window| && outbufpos == time % fftsize
    }

    /** The ring holds the sum of the frames for the samples from `now` on. */
    ghost predicate Holds(now: nat)
      reads this, outbuf
    {
      RingHolds(outbuf[..], now, Mix(frames, window))
    }

    /**
     The invariant between calls: every frame added has started, and the ring holds their sum for the
     `fftsize` samples to come. The quantifier over the one value `time` only keeps `Holds` folded until
     a proof mentions it.
     */
    ghost predicate Valid()
      reads this, outbuf
    {
      && Sized()
      && (forall f | 0 <= f < |frames| :: frames[f].start <= time && |frames[f].samples| == fftsize)
      && forall now | now == time :: Holds(now)
    }

    constructor (fftsize: nat, overlap: nat, window: seq<real>)
      requires 0 < overlap <= fftsize == |window|
      ensures Valid() && fresh(outbuf) && time == 0 && frames == []
      ensures this.fftsize == fftsize && this.window == window && hopsize == fftsize / overlap
    {
      this.fftsize, this.window := fftsize, window;
      hopsize := fftsize / overlap;
      outbuf := new real[fftsize](_ => 0.0);
      outbufpos, time, frames := 0, 0, [];
      new;
      HopFits(fftsize, overlap);
      ModSmall(0, fftsize);
      forall t | 0 <= t < fftsize ensures outbuf[..][t % fftsize] == Mix([], window)(t) { ModSmall(t, fftsize); }
      assert Holds(time);
    }

    /** Adds a frame to the ring, windowing and normalizing it. */
    method AddIn(ifftout: seq<real>, ghost was: int -> real, ghost now: int -> real)
      requires Sized() && |ifftout| == fftsize && RingHolds(outbuf[..], time, was)
      requires forall i | 0 <= i < fftsize :: now(time + i) == was(time + i) + Weighted(ifftout[i], fftsize, window[i])
      modifies outbuf
      ensures RingHolds(outbuf[..], time, now)
    {
      var i, j := 0, outbufpos;
      while i < fftsize
        invariant 0 <= i <= fftsize && j == outbufpos + i
        invariant RingHolds(outbuf[..], time, Switch(was, now, time + i))
      {
        ghost var ring := outbuf[..];
        ModAdd(time, i, fftsize);
        outbuf[j % fftsize] := outbuf[j % fftsize] + Weighted(ifftout[i], fftsize, window[i]);
        assert outbuf[..] == ring[j % fftsize := outbuf[j % fftsize]];
        AddStep(ring, time, i, was, now, outbuf[j % fftsize]);
        i, j := i + 1, j + 1;
      }
    }

    /** Takes in a frame that starts now. */
    method AddFrame(ifftout: seq<real>)
      requires Valid() && |ifftout| == fftsize
      modifies outbuf, this`frames
      ensures Valid() && frames == old(frames) + [Frame(time, ifftout)]
    {
      ghost var frame := Frame(time, ifftout);
      ghost var was, now := Mix(frames, window), Mix(frames + [frame], window);
      forall i | 0 <= i < fftsize
        ensures now(time + i) == was(time + i) + Weighted(ifftout[i], fftsize, window[i])
      {
        MixedMore(frames, window, frame, time + i);
      }
      assert Holds(time);
      AddIn(ifftout, was, now);
      frames := frames + [frame];
      assert Holds(time);
    }

    /** Reads one slot of the ring and zeroes it. */
    method PassSlot(j: nat, ghost t: nat, ghost want: int -> real) returns (x: real)
      requires 0 < fftsize == outbuf.Length && RingHolds(outbuf[..], t, want)
      requires j % fftsize == t % fftsize && want(t + fftsize) == 0.0
      modifies outbuf
      ensures RingHolds(outbuf[..], t + 1, want) && x == want(t)
    {
      ghost var ring := outbuf[..];
      x := outbuf[j % fftsize];
      outbuf[j % fftsize] := 0.0;
      assert outbuf[..] == ring[t % fftsize := 0.0];
      ZeroTurn(ring, t, want);
    }

    /** Outputs a block, zeroing the part of the ring that was just output. */
    method ReadOut(n: nat, ghost want: int -> real) returns (out: seq<real>)
      requires Sized() && RingHolds(outbuf[..], time, want)
      requires forall t | time + fftsize <= t < time + fftsize + n :: want(t) == 0.0
      modifies outbuf
      ensures RingHolds(outbuf[..], time + n, want)
      ensures |out| == n && forall i | 0 <= i < n :: out[i] == want(time + i)
    {
      out := [];
      var i, j := 0, outbufpos;
      while i < n
        invariant 0 <= i <= n && j == outbufpos + i && |out| == i
        invariant RingHolds(outbuf[..], time + i, want)
        invariant forall q | 0 <= q < i :: out[q] == want(time + q)
      {
        assert j % fftsize == (time + i) % fftsize by { ModAdd(time, i, fftsize); }
        var x := PassSlot(j, time + i, want);
        out := out + [x];
        i, j := i + 1, j + 1;
      }
    }

    /** Outputs a block and moves the position in the ring forward by it. */
    method Emit(n: nat) returns (out: seq<real>)
      requires Valid()
      modifies outbuf, this`outbufpos, this`time
      ensures Valid() && time == old(time) + n
      ensures |out| == n && forall i | 0 <= i < n :: out[i] == Mixed(frames, window, old(time) + i)
    {
      ghost var want := Mix(frames, window);
      forall t | time + fftsize <= t < time + fftsize + n ensures want(t) == 0.0 { MixedBehind(frames, window, t); }
      assert Holds(time);
      out := ReadOut(n, want);
      ModAdd(time, n, fftsize);
      outbufpos := (outbufpos + n) % fftsize;
      time := time + n;
      assert Holds(time);
    }

    /** One call of any block size: `ifftout` is the inverse transform, used when the block starts a frame. */
    method Perform(n: nat, ifftout: seq<real>) returns (out: seq<real>)
      requires Valid() && |ifftout| == fftsize
      modifies outbuf, this`outbufpos, this`time, this`frames
      ensures Valid() && time == old(time) + n
      ensures frames == old(frames) + if Fires(old(time), fftsize, hopsize) then [Frame(old(time), ifftout)] else []
      ensures |out| == n && forall i | 0 <= i < n :: out[i] == Mixed(frames, window, old(time) + i)
    {
      if outbufpos % hopsize == 0 {
        AddFrame(ifftout);
      }
      out := Emit(n);
    }
  }

  lemma HopFits(fftsize: nat, overlap: nat)
    requires 0 < overlap <= fftsize
    ensures 0 < fftsize / overlap <= fftsize
  {
    DivPositive(fftsize, overlap);
    MulAtLeast(overlap, fftsize / overlap);
    assert fftsize == (fftsize / overlap) * overlap + fftsize % overlap;
  }

  // When frames start.

  /** The trigger: a call that starts at sample `time` starts a frame. */
  predicate Fires(time: nat, fftsize: nat, hop: nat)
    requires 0 < hop && 0 < fftsize
  {
    (time % fftsize) % hop == 0
  }

  /** The trigger fires at the multiples of the hop size within each turn of the ring, counted anew in every turn. */
  lemma FiresIff(time: nat, fftsize: nat, hop: nat)
    requires 0 < hop && 0 < fftsize
    ensures Fires(time, fftsize, hop)
       <==> exists turn: nat, q: nat :: FiresIn(time, fftsize, hop, turn, q)
  {
    if Fires(time, fftsize, hop) {
      var r := time % fftsize;
      DivExact(r, hop);
      assert time == (time / fftsize) * fftsize + r;
      assert FiresIn(time, fftsize, hop, time / fftsize, r / hop);
    }
    if turn: nat, q: nat :| FiresIn(time, fftsize, hop, turn, q) {
      DivModUnique(time, fftsize, turn, q * hop);
      DivModUnique(q * hop, hop, q, 0);
    }
  }

  ghost predicate FiresIn(time: nat, fftsize: nat, hop: nat, turn: nat, q: nat) {
    time == turn * fftsize + q * hop && q * hop < fftsize
  }

  /** With blocks of size `n`, a frame starts at sample `t`: a call starts there, and it fires. */
  predicate StartsAt(t: nat, n: nat, fftsize: nat, hop: nat)
    requires 0 < n && 0 < hop && 0 < fftsize
  {
    t % n == 0 && Fires(t, fftsize, hop)
  }

  /**
   In a run longer than a frame and a hop, frames start at the multiples of the hop size and nowhere
   else exactly when the block size divides the hop size and the hop size the frame size.
   */
  lemma FramesOnTime(n: nat, fftsize: nat, hop: nat, end: nat)
    requires 0 < n && 0 < hop <= fftsize && fftsize + hop <= end
    ensures (forall t: nat | t < end :: StartsAt(t, n, fftsize, hop) <==> t % hop == 0)
       <==> hop % n == 0 && fftsize % hop == 0
  {
    if hop % n == 0 && fftsize % hop == 0 {
      forall t: nat | t < end ensures StartsAt(t, n, fftsize, hop) <==> t % hop == 0 {
        OnTime(t, n, fftsize, hop);
      }
    } else if hop % n != 0 {
      DivModUnique(hop, hop, 1, 0);
      assert !StartsAt(hop, n, fftsize, hop);
    } else {
      MissedHop(n, fftsize, hop);
    }
  }

  lemma OnTime(t: nat, n: nat, fftsize: nat, hop: nat)
    requires 0 < n && 0 < hop <= fftsize && hop % n == 0 && fftsize % hop == 0
    ensures StartsAt(t, n, fftsize, hop) <==> t % hop == 0
  {
    DivExact(hop, n);
    DivExact(fftsize, hop);
    RemainderOfRemainder(t, hop, n, hop / n);
    RemainderOfRemainder(t, fftsize, hop, fftsize / hop);
    ModSmall(0, n);
  }

  /** Where a hop size that does not divide the frame size misses its first multiple behind a frame. */
  lemma MissedHop(n: nat, fftsize: nat, hop: nat)
    requires 0 < n && 0 < hop <= fftsize && fftsize % hop != 0
    ensures var t := (fftsize / hop + 1) * hop;
            fftsize < t < fftsize + hop && t % hop == 0 && !StartsAt(t, n, fftsize, hop)
  {
    var t, r := (fftsize / hop + 1) * hop, hop - fftsize % hop;
    assert t == fftsize + r;
    ModPlusMultiple(0, hop, fftsize / hop + 1);
    ModSmall(0, hop);
    DivModUnique(t, fftsize, 1, r);
    ModSmall(r, hop);
  }

  // Whole runs.

  /** The sample that call `c` starts at. */
  function At(sizes: seq<nat>, c: nat): nat
    requires c <= |sizes|
  {
    if c == 0 then 0 else At(sizes, c - 1) + sizes[c - 1]
  }

  /** The frames started by the first `c` calls; `supply[c]` is the inverse transform that call `c` would make. */
  function Started(sizes: seq<nat>, supply: seq<seq<real>>, fftsize: nat, hop: nat, c: nat): (frames: seq<Frame>)
    requires c <= |sizes| == |supply| && 0 < hop && 0 < fftsize
  {
    if c == 0 then []
    else
      var t := At(sizes, c - 1);
      Started(sizes, supply, fftsize, hop, c - 1) + if Fires(t, fftsize, hop) then [Frame(t, supply[c - 1])] else []
  }

  /** The frames of later calls start where the earlier calls end, or after. */
  lemma {:induction false} StartedLater(sizes: seq<nat>, supply: seq<seq<real>>, fftsize: nat, hop: nat, c: nat, d: nat)
    returns (more: seq<Frame>)
    requires c <= d <= |sizes| == |supply| && 0 < hop && 0 < fftsize
    ensures Started(sizes, supply, fftsize, hop, d) == Started(sizes, supply, fftsize, hop, c) + more
    ensures At(sizes, c) <= At(sizes, d) && forall f | 0 <= f < |more| :: At(sizes, c) <= more[f].start
    decreases d
  {
    if c == d {
      more := [];
    } else {
      more := StartedLater(sizes, supply, fftsize, hop, c, d - 1);
      if Fires(At(sizes, d - 1), fftsize, hop) { more := more + [Frame(At(sizes, d - 1), supply[d - 1])]; }
    }
  }

  lemma AllFrames(sizes: seq<nat>, supply: seq<seq<real>>, fftsize: nat, hop: nat, window: seq<real>, c: nat, t: int)
    requires c <= |sizes| == |supply| && 0 < hop && 0 < fftsize && t < At(sizes, c)
    ensures Mixed(Started(sizes, supply, fftsize, hop, |sizes|), window, t)
            == Mixed(Started(sizes, supply, fftsize, hop, c), window, t)
  {
    var more := StartedLater(sizes, supply, fftsize, hop, c, |sizes|);
    MixedBefore(Started(sizes, supply, fftsize, hop, c), window, more, t);
  }

  /**
   A whole run, with blocks of any sizes, any overlap and any window: every sample is the sum of all
   the frames started in the run.
   */
  method Play(fftsize: nat, overlap: nat, window: seq<real>, sizes: seq<nat>, supply: seq<seq<real>>)
      returns (out: seq<real>)
    requires 0 < overlap <= fftsize == |window|
    requires |supply| == |sizes| && forall c | 0 <= c < |supply| :: |supply[c]| == fftsize
    ensures 0 < fftsize / overlap && |out| == At(sizes, |sizes|)
    ensures forall t | 0 <= t < |out| ::
              out[t] == Mixed(Started(sizes, supply, fftsize, fftsize / overlap, |sizes|), window, t)
  {
    HopFits(fftsize, overlap);
    var v := new Vocoder(fftsize, overlap, window);
    out := [];
    var c := 0;
    while c < |sizes|
      invariant 0 <= c <= |sizes| && v.Valid() && fresh(v) && fresh(v.outbuf)
      invariant |out| == v.time == At(sizes, c) && v.frames == Started(sizes, supply, fftsize, v.hopsize, c)
      invariant forall t | 0 <= t < |out| ::
                out[t] == Mixed(Started(sizes, supply, fftsize, v.hopsize, |sizes|), window, t)
    {
      var block := v.Perform(sizes[c], supply[c]);
      forall i | 0 <= i < |block|
        ensures block[i] == Mixed(Started(sizes, supply, fftsize, v.hopsize, |sizes|), window, |out| + i)
      {
        AllFrames(sizes, supply, fftsize, v.hopsize, window, c + 1, |out| + i);
      }
      out := out + block;
      c := c + 1;
    }
  }

  ghost predicate StartedAt(frames: seq<Frame>, t: nat) { exists f | 0 <= f < |frames| :: frames[f].start == t }

  /** With equal blocks the frames of a run start exactly where a call starts and its trigger fires. */
  lemma {:induction false} StartedIff(sizes: seq<nat>, n: nat, supply: seq<seq<real>>, fftsize: nat, hop: nat, c: nat,
                                      t: nat)
    requires 0 < n && 0 < hop && 0 < fftsize && c <= |sizes| == |supply| && forall i | 0 <= i < |sizes| :: sizes[i] == n
    ensures At(sizes, c) == c * n
    ensures StartedAt(Started(sizes, supply, fftsize, hop, c), t) <==> t < c * n && StartsAt(t, n, fftsize, hop)
    decreases c
  {
    if c > 0 {
      var was, now := Started(sizes, supply, fftsize, hop, c - 1), Started(sizes, supply, fftsize, hop, c);
      StartedIff(sizes, n, supply, fftsize, hop, c - 1, t);
      MultipleBelow(t, n, c);
      assert forall f | 0 <= f < |was| :: now[f] == was[f];
      if Fires((c - 1) * n, fftsize, hop) { assert now[|was|].start == (c - 1) * n; }
    }
  }

  lemma MultipleBelow(t: nat, n: nat, c: nat)
    requires 0 < n && 0 < c
    ensures c * n == (c - 1) * n + n && ((c - 1) * n) % n == 0
    ensures t % n == 0 ==> (t < c * n <==> t < (c - 1) * n || t == (c - 1) * n)
  {
    DivModUnique((c - 1) * n, n, c - 1, 0);
    if t % n == 0 && (c - 1) * n < t < c * n { DivModUnique(t, n, c - 1, t - (c - 1) * n); }
  }

  /** Up to sample `end` a frame starts at each multiple of the hop size, and nowhere else. */
  ghost predicate OnceAHop(frames: seq<Frame>, hop: nat, end: nat)
    requires 0 < hop
  {
    forall t: nat | t < end :: StartedAt(frames, t) <==> t % hop == 0
  }

  /** A run of equal blocks, longer than a frame and a hop, starts one frame a hop exactly when both sizes divide. */
  lemma RunOnTime(sizes: seq<nat>, n: nat, supply: seq<seq<real>>, fftsize: nat, hop: nat, end: nat)
    requires 0 < n && 0 < hop <= fftsize && |sizes| == |supply| && forall i | 0 <= i < |sizes| :: sizes[i] == n
    requires fftsize + hop <= end == |sizes| * n
    ensures OnceAHop(Started(sizes, supply, fftsize, hop, |sizes|), hop, end) <==> hop % n == 0 && fftsize % hop == 0
  {
    var frames := Started(sizes, supply, fftsize, hop, |sizes|);
    forall t: nat | t < end ensures StartedAt(frames, t) == StartsAt(t, n, fftsize, hop) {
      StartedIff(sizes, n, supply, fftsize, hop, |sizes|, t);
    }
    SameStarts(frames, n, fftsize, hop, end);
  }

  lemma SameStarts(frames: seq<Frame>, n: nat, fftsize: nat, hop: nat, end: nat)
    requires 0 < n && 0 < hop <= fftsize && fftsize + hop <= end
    requires forall t: nat | t < end :: StartedAt(frames, t) == StartsAt(t, n, fftsize, hop)
    ensures OnceAHop(frames, hop, end) <==> hop % n == 0 && fftsize % hop == 0
  {
    FramesOnTime(n, fftsize, hop, end);
    if OnceAHop(frames, hop, end) {
      forall t: nat | t < end ensures StartsAt(t, n, fftsize, hop) <==> t % hop == 0 {
        assert StartedAt(frames, t) == StartsAt(t, n, fftsize, hop);
      }
    }
  }

  /** With equal blocks that divide the hop, and hops that divide the frame, frame `f` starts at `f * hop`. */
  lemma {:induction false} RegularFrames(n: nat, calls: nat, supply: seq<seq<real>>, fftsize: nat, hop: nat, c: nat)
    requires 0 < n && 0 < hop <= fftsize && hop % n == 0 && fftsize % hop == 0 && c <= calls == |supply|
    ensures var sizes, frames := seq(calls, _ => n), Started(seq(calls, _ => n), supply, fftsize, hop, c);
            && At(sizes, c) == c * n && (|frames| - 1) * hop < c * n <= |frames| * hop
            && forall f | 0 <= f < |frames| :: frames[f].start == f * hop
    decreases c
  {
    if c == 0 {
      MulAtMost(-1, hop);
    } else {
      var t := (c - 1) * n;
      RegularFrames(n, calls, supply, fftsize, hop, c - 1);
      RegularStep(t, |Started(seq(calls, _ => n), supply, fftsize, hop, c - 1)|, n, fftsize, hop, c);
    }
  }

  lemma RegularStep(t: nat, count: nat, n: nat, fftsize: nat, hop: nat, c: nat)
    requires 0 < n && 0 < hop <= fftsize && hop % n == 0 && fftsize % hop == 0 && 0 < c && t == (c - 1) * n
    requires (count - 1) * hop < t <= count * hop
    ensures c * n == t + n && (Fires(t, fftsize, hop) <==> t == count * hop)
    ensures var count' := if Fires(t, fftsize, hop) then count + 1 else count;
            (count' - 1) * hop < t + n <= count' * hop
  {
    OnTime(t, n, fftsize, hop);
    assert t % n == 0 by { ModPlusMultiple(0, n, c - 1); ModSmall(0, n); }
    BlockFits(c - 1, n, hop);
    FrameDue(t, count, hop, n);
  }

  /** Between calls a frame is due exactly when the time is a multiple of the hop size; a block stays within its hop. */
  lemma FrameDue(time: nat, count: nat, hop: nat, n: nat)
    requires 0 < hop && (count - 1) * hop < time <= count * hop && 0 < n && time % hop + n <= hop
    ensures time % hop == 0 <==> time == count * hop
    ensures time % hop == 0 ==> count * hop < time + n <= (count + 1) * hop
    ensures time % hop != 0 ==> (count - 1) * hop < time + n <= count * hop
  {
    assert (count - 1) * hop == count * hop - hop && (count + 1) * hop == count * hop + hop;
    if time == count * hop {
      DivModUnique(time, hop, count, 0);
    } else {
      DivModUnique(time, hop, count - 1, time - (count - 1) * hop);
    }
  }

  /** Blocks whose size divides the hop size never cross a hop. */
  lemma BlockFits(c: nat, n: nat, hop: nat)
    requires 0 < n && 0 < hop && hop % n == 0
    ensures (c * n) % hop + n <= hop
  {
    var r, k := (c * n) % hop, hop / n;
    DivExact(hop, n);
    assert k * n == hop;
    RemainderOfRemainder(c * n, hop, n, k);
    ModPlusMultiple(0, n, c);
    ModSmall(0, n);
    DivExact(r, n);
    var d := k - r / n;
    assert d * n == hop - r;
    if d <= -1 { MulAtMost(d, n); } else if d >= 1 { MulAtLeast(d, n); }
  }

  // Nothing is lost or output twice.

  /** The sum of each frame, normalized and windowed. */
  function Shapes(frame: Frame, window: seq<real>): int -> real { i => Shape(frame, window, i) }

  function FrameTotals(frames: seq<Frame>, window: seq<real>): int -> real {
    f => if 0 <= f < |frames| then Sum(0, |window|, Shapes(frames[f], window)) else 0.0
  }

  function Grid(frames: seq<Frame>, window: seq<real>): (int, int) -> real { (t, f) => Tap(frames, window, f, t) }

  /** Over the whole output, one frame contributes each of its samples once. */
  lemma FrameSpent(frames: seq<Frame>, window: seq<real>, f: nat, end: nat)
    requires f < |frames| && frames[f].start + |window| <= end
    ensures Sum(0, end, Col(Grid(frames, window), f)) == Sum(0, |window|, Shapes(frames[f], window))
  {
    var g, lo := Col(Grid(frames, window), f), frames[f].start;
    var hi := lo + |window|;
    SumSplit(0, lo, end, g);
    SumSplit(lo, hi, end, g);
    SumZero(0, lo, g);
    SumZero(hi, end, g);
    SumMoved(lo, hi, 0, |window|, g, Shapes(frames[f], window));
  }

  /** The sum of all output is the sum of all frames, wherever they start. */
  lemma Conservation(frames: seq<Frame>, window: seq<real>, end: nat)
    requires forall f | 0 <= f < |frames| :: frames[f].start + |window| <= end
    ensures Sum(0, end, Mix(frames, window)) == Sum(0, |frames|, FrameTotals(frames, window))
  {
    var g, n := Grid(frames, window), |frames|;
    forall t | 0 <= t < end ensures Mix(frames, window)(t) == RowSums(0, n, g)(t) {
      SumCongruent(0, n, Taps(frames, window, t), Row(g, t));
    }
    SumCongruent(0, end, Mix(frames, window), RowSums(0, n, g));
    SumExchange(0, end, 0, n, g);
    forall f | 0 <= f < n ensures ColSums(0, end, g)(f) == FrameTotals(frames, window)(f) {
      FrameSpent(frames, window, f, end);
    }
    SumCongruent(0, n, ColSums(0, end, g), FrameTotals(frames, window));
  }

  // Frames that are left as they were read.

  /** A frame is the windowed source from its start on, as the unnormalized inverse of its transform returns it. */
  ghost predicate AsRead(frame: Frame, window: seq<real>, source: int -> real) {
    && |frame.samples| == |window|
    && forall i | 0 <= i < |window| :: frame.samples[i] == |window| as real * (source(frame.start + i) * window[i])
  }

  ghost predicate Unchanged(frames: seq<Frame>, hop: nat, window: seq<real>, source: int -> real) {
    forall f | 0 <= f < |frames| :: frames[f].start == f * hop && AsRead(frames[f], window, source)
  }

  function SquareAt(window: seq<real>, i: int): real { if 0 <= i < |window| then window[i] * window[i] else 0.0 }

  /** The squares of the window at offset `r` within a hop, one per overlapping frame. */
  function Squares(window: seq<real>, hop: nat, r: int): int -> real { q => SquareAt(window, r + q * hop) }

  /** The sample `x` times the overlapped squares of the window. */
  function Gain(x: real, window: seq<real>, hop: nat, overlap: nat, r: int): real {
    Times(x, Sum(0, overlap, Squares(window, hop, r)))
  }

  lemma UnchangedTap(frames: seq<Frame>, hop: nat, window: seq<real>, source: int -> real, f: int, t: int)
    requires Unchanged(frames, hop, window, source) && 0 <= f < |frames|
    ensures Tap(frames, window, f, t) == source(t) * SquareAt(window, t - f * hop)
  {}

  /** Once all overlapping frames are under way, the source comes back with a gain that repeats every hop. */
  lemma UnchangedOutput(frames: seq<Frame>, hop: nat, window: seq<real>, overlap: nat, source: int -> real, t: nat)
    requires 0 < hop && 0 < overlap && overlap * hop == |window| && Unchanged(frames, hop, window, source)
    requires (overlap - 1) * hop <= t < |frames| * hop
    ensures Mixed(frames, window, t) == Gain(source(t), window, hop, overlap, t % hop)
  {
    FramesReaching(t, hop, overlap, |frames|);
    OverlappingOutput(frames, hop, window, overlap, source, t, t / hop, t % hop);
  }

  lemma OverlappingOutput(frames: seq<Frame>, hop: nat, window: seq<real>, overlap: nat, source: int -> real, t: nat,
      k: nat, r: nat)
    requires 0 < hop && 0 < overlap && overlap * hop == |window| && Unchanged(frames, hop, window, source)
    requires k == t / hop && t == k * hop + r && 0 <= k + 1 - overlap && k + 1 <= |frames| && t < (k + 1) * hop
    ensures Mixed(frames, window, t) == Gain(source(t), window, hop, overlap, r)
  {
    calc {
      Mixed(frames, window, t);
      { OnlyOverlapping(frames, hop, window, overlap, t, k); }
      Sum(k + 1 - overlap, k + 1, Taps(frames, window, t));
      { OverlappingGain(frames, hop, window, overlap, source, t, k, r); }
      Gain(source(t), window, hop, overlap, r);
    }
  }

  lemma OnlyOverlapping(frames: seq<Frame>, hop: nat, window: seq<real>, overlap: nat, t: nat, k: nat)
    requires 0 < hop && 0 < overlap && overlap * hop == |window| && k == t / hop
    requires 0 <= k + 1 - overlap && k + 1 <= |frames| && t < (k + 1) * hop
    requires forall f | 0 <= f < |frames| :: frames[f].start == f * hop
    ensures Mixed(frames, window, t) == Sum(k + 1 - overlap, k + 1, Taps(frames, window, t))
  {
    var taps, lo, hi := Taps(frames, window, t), k + 1 - overlap, k + 1;
    SumSplit(0, lo, |frames|, taps);
    SumSplit(lo, hi, |frames|, taps);
    forall f | 0 <= f < lo ensures taps(f) == 0.0 { FrameOver(t, hop, overlap, f); }
    forall f | hi <= f < |frames| ensures taps(f) == 0.0 { MulMonotone(hi, f, hop); }
    SumZero(0, lo, taps);
    SumZero(hi, |frames|, taps);
  }

  lemma OverlappingGain(frames: seq<Frame>, hop: nat, window: seq<real>, overlap: nat, source: int -> real, t: nat,
      k: nat, r: nat)
    requires 0 < overlap && Unchanged(frames, hop, window, source) && t == k * hop + r
    requires 0 <= k + 1 - overlap && k + 1 <= |frames|
    ensures Sum(k + 1 - overlap, k + 1, Taps(frames, window, t)) == Gain(source(t), window, hop, overlap, r)
  {
    AllScale(frames, hop, window, overlap, source, t, k, r);
    GainSum(Taps(frames, window, t), source(t), Squares(window, hop, r), k, overlap);
  }

  lemma AllScale(frames: seq<Frame>, hop: nat, window: seq<real>, overlap: nat, source: int -> real, t: nat, k: nat,
      r: nat)
    requires Unchanged(frames, hop, window, source) && t == k * hop + r && overlap <= k + 1 <= |frames|
    ensures forall q | 0 <= q < overlap :: Scales(Taps(frames, window, t), source(t), Squares(window, hop, r), k, q)
  {
    forall q | 0 <= q < overlap ensures Scales(Taps(frames, window, t), source(t), Squares(window, hop, r), k, q) {
      OverlappingTap(frames, hop, window, source, t, k, r, q);
    }
  }

  ghost predicate Scales(taps: int -> real, x: real, squares: int -> real, k: int, q: int) {
    taps(k - q) == Times(x, squares(q))
  }

  lemma OverlappingTap(frames: seq<Frame>, hop: nat, window: seq<real>, source: int -> real, t: nat, k: nat, r: nat,
      q: nat)
    requires Unchanged(frames, hop, window, source) && t == k * hop + r && q <= k < |frames|
    ensures Scales(Taps(frames, window, t), source(t), Squares(window, hop, r), k, q)
  {
    UnchangedTap(frames, hop, window, source, k - q, t);
    assert (k - q) * hop == k * hop - q * hop;
  }

  lemma GainSum(taps: int -> real, x: real, squares: int -> real, k: nat, overlap: nat)
    requires forall q | 0 <= q < overlap :: Scales(taps, x, squares, k, q)
    ensures Sum(k + 1 - overlap, k + 1, taps) == Times(x, Sum(0, overlap, squares))
  {
    var g: int -> real := q => taps(k - q);
    assert forall q | 0 <= q < overlap :: Scales(taps, x, squares, k, q) && g(q) == Times(x, squares(q));
    SumReversed(k + 1 - overlap, k + 1, taps, g);
    SumTimes(0, overlap, g, x, squares);
  }

  lemma FramesReaching(t: nat, hop: nat, overlap: nat, count: nat)
    requires 0 < hop && 0 < overlap && (overlap - 1) * hop <= t < count * hop
    ensures t == (t / hop) * hop + t % hop && 0 <= t / hop + 1 - overlap && t / hop + 1 <= count
    ensures t < (t / hop + 1) * hop
  {
    var k := t / hop;
    assert t == k * hop + t % hop;
    assert (k + 1) * hop == k * hop + hop;
    if k + 1 <= overlap - 1 { MulMonotone(k + 1, overlap - 1, hop); }
    if count <= k { MulMonotone(count, k, hop); }
  }

  lemma FrameOver(t: nat, hop: nat, overlap: nat, f: int)
    requires 0 < hop && 0 < overlap && f < t / hop + 1 - overlap
    ensures t - f * hop >= overlap * hop
  {}
}
