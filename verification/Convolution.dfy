/** Direct convolution, and how block products of zero-padded pieces add up to it. */
module Convolution {
  import opened Arithmetic
  import opened Summation
  import opened Spectrum

  function DirectTerm(x: seq<real>, h: seq<real>, t: int): int -> real { d => At(h, d) * At(x, t - d) }

  /** Sample `t` of the convolution of the stream `x` with the impulse response `h`. */
  function Direct(x: seq<real>, h: seq<real>, t: int): real { Sum(0, |h|, DirectTerm(x, h, t)) }

  /** Block `b` of a stream already cut into blocks; silence before the first and after the last. */
  function BlockAt(blocks: seq<seq<real>>, b: int): seq<real> { if 0 <= b < |blocks| then blocks[b] else [] }

  /** Partition `i` of the impulse response: samples `i * p` to `i * p + p`. */
  function Piece(p: nat, h: seq<real>, i: int): (s: seq<real>)
    ensures |s| == p
  {
    seq(p, j => At(h, i * p + j))
  }

  function Zeros(n: nat): (z: seq<real>)
    ensures |z| == n && forall i | 0 <= i < n :: z[i] == 0.0
  {
    if n == 0 then [] else Zeros(n - 1) + [0.0]
  }

  function Added(u: seq<real>, v: seq<real>): (s: seq<real>)
    requires |u| == |v|
    ensures |s| == |u|
  {
    seq(|u|, i requires 0 <= i < |u| => u[i] + v[i])
  }

  /** The products of block `c - i` with partition `i`, for `lo <= i < parts`, in circular form and added up. */
  function Partial(p: nat, blocks: seq<seq<real>>, h: seq<real>, parts: nat, c: int, lo: nat): (y: seq<real>)
    ensures |y| == 2 * p
    decreases parts - lo
  {
    if parts <= lo then Zeros(2 * p)
    else Added(Partial(p, blocks, h, parts, c, lo + 1), Circular(2 * p, BlockAt(blocks, c - lo), Piece(p, h, lo)))
  }

  /**
   What `k` products of a signal `g` of `2 * p` samples with partitions 0 to `k - 1` leave in block `c`,
   if `g` takes the place of the block before the first.
   */
  function Residue(p: nat, g: seq<real>, h: seq<real>, k: nat, c: int): (y: seq<real>)
    ensures |y| == 2 * p
  {
    if 0 <= c + 1 < k then Circular(2 * p, g, Piece(p, h, c + 1)) else Zeros(2 * p)
  }

  /** Padding two blocks of size `p` to `2 * p` leaves no room for wrap-around. */
  lemma PaddedCircularIsLinear(p: nat, x: seq<real>, h: seq<real>, t: int)
    requires |x| <= p && |h| <= p && 0 <= t < 2 * p
    ensures Circular(2 * p, x, h)[t] == Sum(0, p, DirectTerm(x, h, t))
  {
    SumSplit(0, p, 2 * p, CircularTerm(2 * p, x, h, t));
    SumZero(p, 2 * p, CircularTerm(2 * p, x, h, t));
    SumCongruent(0, p, CircularTerm(2 * p, x, h, t), DirectTerm(x, h, t));
  }

  /** `x` is the blocks laid end to end. */
  ghost predicate Concatenation(p: nat, blocks: seq<seq<real>>, x: seq<real>) {
    && |x| == |blocks| * p
    && (forall b | 0 <= b < |blocks| :: |blocks[b]| == p)
    && (forall b, i | 0 <= b < |blocks| && 0 <= i < p :: SampleAgrees(p, blocks, x, b, i))
  }

  ghost predicate SampleAgrees(p: nat, blocks: seq<seq<real>>, x: seq<real>, b: int, i: int) {
    At(BlockAt(blocks, b), i) == At(x, b * p + i)
  }

  lemma SamplesAgree(p: nat, blocks: seq<seq<real>>, x: seq<real>, b: int, i: int)
    requires Concatenation(p, blocks, x) && 0 <= i < p
    ensures SampleAgrees(p, blocks, x, b, i)
  {}

  lemma Offsets(p: int, c: int, i: int)
    ensures (c - i) * p == c * p - i * p
    ensures (c - 1 - i) * p == c * p - p - i * p
  {}

  /** One term of a partition: the sample lies in the current block or in the one before it, never in both. */
  lemma PieceEntry(p: nat, blocks: seq<seq<real>>, x: seq<real>, h: seq<real>, c: int, i: int, r: int, d: int,
      base: int, t: int)
    requires Concatenation(p, blocks, x) && 0 <= r < p && 0 <= d < p
    requires base == i * p && t == c * p + r
    ensures At(BlockAt(blocks, c - i), r - d) + At(BlockAt(blocks, c - 1 - i), p + r - d) == At(x, t - (d + base))
    ensures At(Piece(p, h, i), d) == At(h, d + base)
  {
    assert (c - i) * p + (r - d) == t - (d + base) == (c - 1 - i) * p + (p + r - d) by { Offsets(p, c, i); }
    assert |BlockAt(blocks, c - i)| <= p;
    if d <= r {
      SamplesAgree(p, blocks, x, c - i, r - d);
    } else {
      SamplesAgree(p, blocks, x, c - 1 - i, p + r - d);
    }
    PieceAt(p, h, i, d, base);
  }

  lemma PieceAt(p: nat, h: seq<real>, i: int, d: int, base: int)
    requires 0 <= d < p && base == i * p
    ensures At(Piece(p, h, i), d) == At(h, d + base)
  {}

  lemma PieceTerm(p: nat, blocks: seq<seq<real>>, x: seq<real>, h: seq<real>, c: int, i: int, r: int, d: int,
      base: int, t: int)
    requires Concatenation(p, blocks, x) && 0 <= r < p && 0 <= d < p
    requires base == i * p && t == c * p + r
    ensures DirectTerm(BlockAt(blocks, c - i), Piece(p, h, i), r)(d)
          + DirectTerm(BlockAt(blocks, c - 1 - i), Piece(p, h, i), p + r)(d)
         == DirectTerm(x, h, t)(d + base)
  {
    PieceEntry(p, blocks, x, h, c, i, r, d, base, t);
    Factored(At(h, d + base), At(BlockAt(blocks, c - i), r - d), At(BlockAt(blocks, c - 1 - i), p + r - d));
  }

  lemma Factored(a: real, y: real, z: real)
    ensures 1.0 * (a * y) + 1.0 * (a * z) == a * (y + z)
  {}

  function Both(f: int -> real, g: int -> real): int -> real { d => f(d) + g(d) }

  /** Sample `r` of one product and sample `p + r` of the one before it, together. */
  lemma PiecePair(p: nat, blocks: seq<seq<real>>, x: seq<real>, h: seq<real>, c: int, i: int, r: int, base: int, t: int)
    requires Concatenation(p, blocks, x) && 0 <= r < p
    requires base == i * p && t == c * p + r
    ensures Circular(2 * p, BlockAt(blocks, c - i), Piece(p, h, i))[r]
          + Circular(2 * p, BlockAt(blocks, c - 1 - i), Piece(p, h, i))[p + r]
         == Sum(base, base + p, DirectTerm(x, h, t))
  {
    var piece, now, before := Piece(p, h, i), BlockAt(blocks, c - i), BlockAt(blocks, c - 1 - i);
    var f, g := DirectTerm(now, piece, r), DirectTerm(before, piece, p + r);
    PaddedCircularIsLinear(p, now, piece, r);
    PaddedCircularIsLinear(p, before, piece, p + r);
    var both := Both(f, g);
    SumAdded(0, p, both, f, g);
    assert Sum(0, p, both) == Sum(base, base + p, DirectTerm(x, h, t)) by {
      forall d | 0 <= d < p ensures both(d) == DirectTerm(x, h, t)(d + base) {
        PieceTerm(p, blocks, x, h, c, i, r, d, base, t);
      }
      SumMoved(base, base + p, 0, p, DirectTerm(x, h, t), both);
    }
  }

  lemma PartialStep(p: nat, blocks: seq<seq<real>>, h: seq<real>, parts: nat, c: int, lo: nat, j: int)
    requires lo < parts && 0 <= j < 2 * p
    ensures Partial(p, blocks, h, parts, c, lo)[j]
         == Partial(p, blocks, h, parts, c, lo + 1)[j] + Circular(2 * p, BlockAt(blocks, c - lo), Piece(p, h, lo))[j]
  {}

  /**
   Overlap-add of the partitioned products is direct convolution: the first half of one sum of
   products plus the second half of the previous one gives the terms of partitions `lo` onwards.
   */
  lemma {:induction false} OverlapAddPartial(p: nat, blocks: seq<seq<real>>, x: seq<real>, h: seq<real>, parts: nat,
                                             c: int, lo: nat, r: int, t: int)
    requires Concatenation(p, blocks, x) && 0 <= r < p && lo <= parts && t == c * p + r
    ensures Partial(p, blocks, h, parts, c, lo)[r] + Partial(p, blocks, h, parts, c - 1, lo)[p + r]
         == Sum(lo * p, parts * p, DirectTerm(x, h, t))
    decreases parts - lo
  {
    if lo < parts {
      OverlapAddPartial(p, blocks, x, h, parts, c, lo + 1, r, t);
      PartialPair(p, blocks, x, h, parts, c, lo, r, t, lo * p);
      SumSplitAt(lo, lo + 1, parts, p, DirectTerm(x, h, t));
    }
  }

  /** Partition `lo` contributes its own terms. */
  lemma PartialPair(p: nat, blocks: seq<seq<real>>, x: seq<real>, h: seq<real>, parts: nat, c: int, lo: nat, r: int,
                    t: int, from: int)
    requires Concatenation(p, blocks, x) && 0 <= r < p && lo < parts && t == c * p + r && from == lo * p
    ensures Partial(p, blocks, h, parts, c, lo)[r] + Partial(p, blocks, h, parts, c - 1, lo)[p + r]
         == (Partial(p, blocks, h, parts, c, lo + 1)[r] + Partial(p, blocks, h, parts, c - 1, lo + 1)[p + r])
          + Sum(from, from + p, DirectTerm(x, h, t))
  {
    PartialStep(p, blocks, h, parts, c, lo, r);
    PartialStep(p, blocks, h, parts, c - 1, lo, p + r);
    PiecePair(p, blocks, x, h, c, lo, r, from, t);
  }

  lemma SumSplitAt(lo: int, mid: int, hi: int, p: nat, f: int -> real)
    requires lo + 1 == mid <= hi
    ensures lo * p + p == mid * p
    ensures Sum(lo * p, hi * p, f) == Sum(lo * p, mid * p, f) + Sum(mid * p, hi * p, f)
  {
    MulMonotone(mid, hi, p);
    SumSplit(lo * p, mid * p, hi * p, f);
  }

  /** All partitions together, against the undivided response and any continuation of the stream. */
  lemma OverlapAddIsDirect(p: nat, blocks: seq<seq<real>>, x: seq<real>, more: seq<real>, h: seq<real>, parts: nat,
                           c: int, r: int, t: int)
    requires Concatenation(p, blocks, x) && 0 <= r < p && t == c * p + r
    requires |h| <= parts * p && c < |blocks|
    ensures Partial(p, blocks, h, parts, c, 0)[r] + Partial(p, blocks, h, parts, c - 1, 0)[p + r]
         == Direct(x + more, h, t)
  {
    OverlapAddPartial(p, blocks, x, h, parts, c, 0, r, t);
    WithinBlocks(p, |blocks|, c, r);
    DirectCongruent(x, more, h, parts * p, t);
  }

  lemma WithinBlocks(p: nat, count: nat, c: int, r: int)
    requires c < count && r < p
    ensures c * p + r < count * p
  {
    MulMonotone(c + 1, count, p);
  }

  lemma DirectCongruent(x: seq<real>, more: seq<real>, h: seq<real>, m: int, t: int)
    requires |h| <= m && t < |x|
    ensures Sum(0, m, DirectTerm(x, h, t)) == Direct(x + more, h, t)
  {
    var f, g := DirectTerm(x, h, t), DirectTerm(x + more, h, t);
    SumSplit(0, |h|, m, f);
    SumZero(|h|, m, f);
    forall d | 0 <= d < |h| ensures f(d) == g(d) { assert At(x, t - d) == At(x + more, t - d); }
    SumCongruent(0, |h|, f, g);
  }

  /** Nothing has been heard before time zero. */
  lemma DirectBeforeStart(x: seq<real>, h: seq<real>, t: int)
    requires t < 0
    ensures Direct(x, h, t) == 0.0
  {
    forall d | 0 <= d < |h| ensures DirectTerm(x, h, t)(d) == 0.0 { assert At(x, t - d) == 0.0; }
    SumZero(0, |h|, DirectTerm(x, h, t));
  }

  lemma ConcatenationExtended(p: nat, blocks: seq<seq<real>>, x: seq<real>, block: seq<real>)
    requires Concatenation(p, blocks, x) && |block| == p
    ensures Concatenation(p, blocks + [block], x + block)
  {
    var blocks', x', count := blocks + [block], x + block, |blocks|;
    assert |x'| == (count + 1) * p;
    forall b, i | 0 <= b < |blocks'| && 0 <= i < p ensures SampleAgrees(p, blocks', x', b, i) {
      if b < count {
        assert SampleAgrees(p, blocks, x, b, i);
        WithinBlocks(p, count, b, i);
      } else {
        assert b * p == |x|;
      }
    }
  }

  /** The stream `heard` is the completed `blocks` followed by the part `rest` of the next block. */
  ghost predicate Streamed(p: nat, blocks: seq<seq<real>>, heard: seq<real>, rest: seq<real>) {
    && |blocks| * p <= |heard|
    && Concatenation(p, blocks, heard[..|blocks| * p])
    && heard[|blocks| * p..] == rest
  }

  lemma StreamGrows(p: nat, blocks: seq<seq<real>>, heard: seq<real>, rest: seq<real>, more: seq<real>)
    requires Streamed(p, blocks, heard, rest)
    ensures Streamed(p, blocks, heard + more, rest + more)
  {
    var m := |blocks| * p;
    assert (heard + more)[..m] == heard[..m];
    assert (heard + more)[m..] == heard[m..] + more;
  }

  lemma StreamTurns(p: nat, blocks: seq<seq<real>>, heard: seq<real>, block: seq<real>)
    requires Streamed(p, blocks, heard, block) && |block| == p
    ensures Streamed(p, blocks + [block], heard, [])
  {
    var m := |blocks| * p;
    assert |blocks + [block]| * p == m + p == |heard|;
    ConcatenationExtended(p, blocks, heard[..m], block);
    assert heard == heard[..m] + block;
    assert heard[..|blocks + [block]| * p] == heard;
  }
}
