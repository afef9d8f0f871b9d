/**
 The `partconv~` object: convolution with a long impulse response, cut into partitions whose
 block products accumulate in a ring of frequency-domain buffers while the work is dealt over
 the calls of a cycle.
 */
module PartitionedConvolution {
  import opened Arithmetic
  import opened Summation
  import opened RootsOfUnity
  import opened Spectrum
  import opened PackedBuffers
  import opened Convolution
  import opened Dealing

  const MAXPARTS: nat := 256

  /** The index `q` places after `base` in a ring of `ring` buffers. */
  function Slot(ring: int, base: int, q: int): int { if base + q < ring then base + q else base + q - ring }

  lemma SlotMod(ring: int, base: int, q: int)
    requires 0 <= base < ring && 0 <= q < ring
    ensures (base + q) % ring == Slot(ring, base, q)
  {}

  /** No block has arrived yet: nothing to add up. */
  lemma {:induction false} PartialSilent(p: nat, h: seq<real>, parts: nat, c: int, lo: nat)
    ensures Partial(p, [], h, parts, c, lo) == Zeros(2 * p)
    decreases parts - lo
  {
    if lo < parts {
      PartialSilent(p, h, parts, c, lo + 1);
      forall t | 0 <= t < 2 * p ensures Circular(2 * p, [], Piece(p, h, lo))[t] == 0.0 {
        SumZero(0, 2 * p, CircularTerm(2 * p, [], Piece(p, h, lo), t));
      }
    }
  }

  /** A block that none of the products uses changes nothing. */
  lemma {:induction false} PartialExtended(p: nat, blocks: seq<seq<real>>, block: seq<real>, h: seq<real>, parts: nat,
      c: int, lo: nat)
    requires c - lo < |blocks|
    ensures Partial(p, blocks + [block], h, parts, c, lo) == Partial(p, blocks, h, parts, c, lo)
    decreases parts - lo
  {
    if lo < parts {
      PartialExtended(p, blocks, block, h, parts, c, lo + 1);
      assert BlockAt(blocks + [block], c - lo) == BlockAt(blocks, c - lo);
    }
  }

  /** The products that a new block does not change, counted from partition `lo` or `lo'`. */
  lemma SameSums(p: nat, b: seq<seq<real>>, block: seq<real>, h: seq<real>, parts: nat, c: int, lo: nat, lo': nat)
    requires c - lo' < |b| && (b == [] || lo == lo' || (parts <= lo && parts <= lo'))
    ensures Partial(p, b + [block], h, parts, c, lo') == Partial(p, b, h, parts, c, lo)
  {
    PartialExtended(p, b, block, h, parts, c, lo');
    if b == [] {
      PartialSilent(p, h, parts, c, lo);
      PartialSilent(p, h, parts, c, lo');
    }
  }

  lemma ForwardZeros(tw: int -> Complex, p: nat, u: seq<real>)
    requires forall j | 0 <= j < 2 * p :: At(u, j) == 0.0
    ensures Forward(tw, p, u) == Zeros(2 * p + 2)
  {
    forall k ensures BinRe(tw, 2 * p, u, k) == 0.0 && BinIm(tw, 2 * p, u, k) == 0.0 { BinZero(tw, 2 * p, u, k); }
  }

  /** Accumulating the spectrum of one more block product extends the partial sum downwards. */
  lemma ProductStep(tw: int -> Complex, p: nat, blocks: seq<seq<real>>, h: seq<real>, parts: nat, c: int, i: nat,
                    rest: seq<real>, row: seq<real>, x: seq<real>, piece: seq<real>)
    requires Twiddles(tw, 2 * p) && i < parts && |rest| == 2 * p
    requires row == Forward(tw, p, Added(Partial(p, blocks, h, parts, c, i + 1), rest))
    requires x == Forward(tw, p, BlockAt(blocks, c - i)) && piece == Forward(tw, p, Piece(p, h, i))
    ensures Accumulated(p, row, x, piece) == Forward(tw, p, Added(Partial(p, blocks, h, parts, c, i), rest))
  {
    var u, s := Added(Partial(p, blocks, h, parts, c, i + 1), rest), Added(Partial(p, blocks, h, parts, c, i), rest);
    var y := Circular(2 * p, BlockAt(blocks, c - i), Piece(p, h, i));
    forall j | 0 <= j < 2 * p ensures At(s, j) == At(u, j) + At(y, j) { PartialStep(p, blocks, h, parts, c, i, j); }
    AccumulatedIsConvolution(tw, p, u, BlockAt(blocks, c - i), Piece(p, h, i), s);
  }

  /** Before the first block, accumulating a product of the signal `g` in the input buffer leaves that product. */
  lemma LeakStep(tw: int -> Complex, p: nat, g: seq<real>, h: seq<real>, parts: nat, c: int, i: nat,
                 row: seq<real>, x: seq<real>, piece: seq<real>)
    requires Twiddles(tw, 2 * p) && c == i - 1
    requires row == Forward(tw, p, Added(Partial(p, [], h, parts, c, i + 1), Residue(p, g, h, i, c)))
    requires x == Forward(tw, p, g) && piece == Forward(tw, p, Piece(p, h, i))
    ensures Accumulated(p, row, x, piece)
         == Forward(tw, p, Added(Partial(p, [], h, parts, c, i), Residue(p, g, h, i + 1, c)))
  {
    var y := Circular(2 * p, g, Piece(p, h, i));
    assert Added(Partial(p, [], h, parts, c, i + 1), Residue(p, g, h, i, c)) == Zeros(2 * p) by {
      PartialSilent(p, h, parts, c, i + 1);
      AddedZeros(Zeros(2 * p), Zeros(2 * p));
    }
    assert Added(Partial(p, [], h, parts, c, i), Residue(p, g, h, i + 1, c)) == y by {
      PartialSilent(p, h, parts, c, i);
      AddedZeros(Zeros(2 * p), y);
    }
    AccumulatedIsConvolution(tw, p, Zeros(2 * p), g, Piece(p, h, i), y);
  }

  lemma AddedZeros(u: seq<real>, v: seq<real>)
    requires |u| == |v|
    ensures u == Zeros(|u|) ==> Added(u, v) == v
    ensures v == Zeros(|v|) ==> Added(u, v) == u
  {}

  /** The number of partitions of a table of `size` samples. */
  function PartCount(p: nat, size: nat): (k: nat)
    requires 0 < p
  {
    var k := size / p + if size % p != 0 then 1 else 0;
    if k > MAXPARTS then MAXPARTS else k
  }

  /** The impulse response in use: the table, cut after MAXPARTS partitions. */
  function Cut(p: nat, table: seq<real>): (h: seq<real>)
    requires 0 < p
  {
    if |table| <= MAXPARTS * p then table else table[..MAXPARTS * p]
  }

  lemma PartCountCovers(p: nat, table: seq<real>)
    requires 0 < p
    ensures |Cut(p, table)| <= PartCount(p, |table|) * p
    ensures forall i | 0 <= i < PartCount(p, |table|) :: i * p < |table|
  {
    var size, k := |table|, PartCount(p, |table|);
    assert size == (size / p) * p + size % p;
    forall i | 0 <= i < k ensures i * p < size {
      if i < size / p { MulMonotone(i + 1, size / p, p); } else { assert i == size / p; }
    }
  }

  /** As many partitions as the table needs, the last one perhaps incomplete, but never more than 256. */
  lemma PartCountIs(p: nat, size: nat)
    requires 0 < p
    ensures PartCount(p, size) <= 256
    ensures 0 < size <= 256 * p ==> PartCount(p, size) * p - p < size <= PartCount(p, size) * p
    ensures PartCount(p, 0) == 0
    ensures size > 256 * p ==> PartCount(p, size) == 256
  {
    var q := size / p;
    assert size == q * p + size % p;
    assert (q + 1) * p == q * p + p;
    if size <= 256 * p {
      if q >= 257 { MulMonotone(257, q, p); }
      if q == 256 { assert size % p == 0; }
    } else if q < 256 {
      MulMonotone(q + 1, 256, p);
    }
  }

  /** The response in use is the whole table, or its first 256 partitions. */
  lemma CutIs(p: nat, table: seq<real>)
    requires 0 < p
    ensures Cut(p, table) == if |table| <= 256 * p then table else table[..256 * p]
  {}

  /** Cuts the table into partitions, pads each with zeros and transforms it. */
  method PartitionResponse(p: nat, tw: int -> Complex, table: seq<real>) returns (spectra: seq<seq<real>>)
    requires 0 < p
    ensures |spectra| == PartCount(p, |table|)
    ensures forall i | 0 <= i < |spectra| :: spectra[i] == Forward(tw, p, Piece(p, Cut(p, table), i))
  {
    var nparts := |table| / p;
    if |table| % p != 0 {
      nparts := nparts + 1;
    }
    if nparts > MAXPARTS {
      nparts := MAXPARTS;
    }
    PartCountCovers(p, table);
    spectra := [];
    var pos := 0;
    for i := 0 to nparts
      invariant |spectra| == i && pos == (if i * p <= |table| then i * p else |table|)
      invariant forall k | 0 <= k < i :: spectra[k] == Forward(tw, p, Piece(p, Cut(p, table), k))
    {
      var td := new real[2 * p + 2];
      pos := FillPartition(td, p, table, pos);
      assert (i + 1) * p == i * p + p;
      PieceFromTable(p, table, i, td[..]);
      ForwardCongruent(tw, p, td[..], Piece(p, Cut(p, table), i));
      spectra := spectra + [Forward(tw, p, td[..])];
    }
  }

  function Spectra(tw: int -> Complex, p: nat, h: seq<real>, parts: nat): (s: seq<seq<real>>)
    ensures |s| == parts
  {
    seq(parts, i requires 0 <= i < parts => Forward(tw, p, Piece(p, h, i)))
  }

  method AllSpectra(p: nat, tw: int -> Complex, table: seq<real>) returns (spectra: seq<seq<real>>)
    requires 0 < p
    ensures spectra == Spectra(tw, p, Cut(p, table), PartCount(p, |table|))
  {
    spectra := PartitionResponse(p, tw, table);
  }

  method FillPartition(td: array<real>, p: nat, table: seq<real>, start: nat) returns (pos: nat)
    requires td.Length == 2 * p + 2 && start <= |table|
    modifies td
    ensures pos == if start + p <= |table| then start + p else |table|
    ensures forall j | 0 <= j < p :: td[j] == At(table, start + j)
    ensures forall j | p <= j < 2 * p + 2 :: td[j] == 0.0
  {
    pos := start;
    var j := 0;
    while j < p && pos < |table|
      invariant 0 <= j <= p && pos == start + j <= |table|
      invariant forall k | 0 <= k < j :: td[k] == table[start + k]
    {
      td[j] := table[pos];
      j, pos := j + 1, pos + 1;
    }
    while j < 2 * p + 2
      invariant pos - start <= j <= 2 * p + 2
      invariant forall k | 0 <= k < pos - start :: td[k] == table[start + k]
      invariant forall k | pos - start <= k < j :: td[k] == 0.0
    {
      td[j] := 0.0;
      j := j + 1;
    }
  }

  lemma PieceFromTable(p: nat, table: seq<real>, i: nat, td: seq<real>)
    requires 0 < p && i < PartCount(p, |table|) && |td| == 2 * p + 2
    requires forall j | 0 <= j < p :: td[j] == At(table, i * p + j)
    requires forall j | p <= j < 2 * p + 2 :: td[j] == 0.0
    ensures forall j | 0 <= j < 2 * p :: At(td, j) == At(Piece(p, Cut(p, table), i), j)
  {
    MulMonotone(i + 1, MAXPARTS, p);
    assert (i + 1) * p == i * p + p;
    forall j | 0 <= j < 2 * p ensures At(td, j) == At(Piece(p, Cut(p, table), i), j) {
      if j < p { assert i * p + j < MAXPARTS * p && At(Piece(p, Cut(p, table), i), j) == At(Cut(p, table), i * p + j); }
    }
  }

  // Facts about buffers, as plain values.

  /** Buffer contents `row` in a state given by the other values. */
  datatype Fact = Fact(row: seq<real>, b: seq<seq<real>>, c: int, lo: nat, k: nat)

  ghost function SpectrumFacts(tw: int -> Complex, p: nat, h: seq<real>, parts: nat, g: seq<real>): iset<Fact> {
    iset f: Fact | |f.row| == 2 * p + 2
      && Cleaned(p, f.row) == Forward(tw, p, Added(Partial(p, f.b, h, parts, f.c, f.lo), Residue(p, g, h, f.k, f.c)))
  }

  ghost function SoundFacts(p: nat, h: seq<real>, parts: nat, g: seq<real>, k: nat): iset<Fact> {
    iset f: Fact | 2 * p <= |f.row|
      && f.row[..2 * p] == Scaled((2 * p) as real, Added(Partial(p, f.b, h, parts, f.c, 0), Residue(p, g, h, k, f.c)))
  }

  /** A buffer and the signal it should be the spectrum of. */
  datatype Transform = Transform(x: seq<real>, u: seq<real>)

  ghost function TransformFacts(tw: int -> Complex, p: nat): iset<Transform> {
    iset f: Transform | |f.x| == 2 * p + 2 && Cleaned(p, f.x) == Forward(tw, p, f.u)
  }

  lemma StaleTransform(tw: int -> Complex, p: nat, buffer: seq<real>)
    requires 0 < p && Twiddles(tw, 2 * p) && |buffer| == 2 * p + 2
    ensures Transform(buffer, Recovered(tw, p, buffer)) in TransformFacts(tw, p)
  {
    ForwardRecovered(tw, p, buffer);
  }

  /** Links the sum buffers into a ring. */
  method LinkRing(ring: nat) returns (next: seq<nat>, prev: seq<nat>)
    requires 2 <= ring
    ensures |next| == |prev| == ring
    ensures forall s | 0 <= s < ring :: next[s] == Slot(ring, s, 1) && prev[s] == Slot(ring, s, ring - 1)
  {
    next, prev := [1], [ring - 1];
    if ring == 2 { SlotMod(2, 0, 1); }
    for i := 1 to ring
      invariant |next| == |prev| == i
      invariant forall s | 0 <= s < i :: next[s] == Slot(ring, s, 1) && prev[s] == Slot(ring, s, ring - 1)
    {
      SlotMod(ring, i, 1);
      next, prev := next + [(i + 1) % ring], prev + [i - 1];
    }
  }

  /** Following `next` and then `prev`, or the other way round, leads back. */
  lemma RingInverse(ring: nat, s: nat)
    requires 2 <= ring && s < ring
    ensures Slot(ring, Slot(ring, s, 1), ring - 1) == s
    ensures Slot(ring, Slot(ring, s, ring - 1), 1) == s
  {}

  /** A signal `g` that the input buffer held at first, and the number `k` of partitions of `h` that it was multiplied
      with. */
  datatype Leak = Leak(p: nat, n: nat, g: seq<real>, h: seq<real>, k: nat)

  /** What is heard of it at output sample `t`: its products, overlap-added in the cycles they were made for. */
  function Echo(l: Leak, t: int): real
    requires 0 < l.p
  {
    var late := l.p - l.n;
    if t < late then At(Residue(l.p, l.g, l.h, l.k, -1), t) else EchoIn(l, (t - late) / l.p, (t - late) % l.p)
  }

  function EchoIn(l: Leak, c: int, r: int): real {
    At(Residue(l.p, l.g, l.h, l.k, c), r) + At(Residue(l.p, l.g, l.h, l.k, c - 1), l.p + r)
  }

  lemma EchoAt(l: Leak, t: int, c: int, r: int)
    requires 0 < l.n <= l.p && 0 <= r < l.p && t - (l.p - l.n) == c * l.p + r && c >= 0
    ensures Echo(l, t) == EchoIn(l, c, r)
  {
    DivModUnique(t - (l.p - l.n), l.p, c, r);
    MulMonotone(0, c, l.p);
  }

  /** Multiplies the spectra `input` and `h`, bin by bin, into buffer `t`. */
  method MultiplyInto(sums: array<seq<real>>, t: nat, p: nat, input: array<real>, h: seq<real>)
    requires t < sums.Length && |sums[t]| == input.Length == |h| == 2 * p + 2
    modifies sums
    ensures sums[t] == Accumulated(p, old(sums[t]), input[..], h)
    ensures forall s | 0 <= s < sums.Length && s != t :: sums[s] == old(sums[s])
  {
    ghost var row := sums[t];
    ghost var goal := Accumulated(p, row, input[..], h);
    for k := 0 to p + 1
      invariant |sums[t]| == 2 * p + 2 && forall s | 0 <= s < sums.Length && s != t :: sums[s] == old(sums[s])
      invariant forall j | 2 * k <= j < 2 * p + 2 :: sums[t][j] == row[j]
      invariant forall j | 0 <= j < 2 * k :: sums[t][j] == goal[j]
    {
      AccumulatedAt(p, row, input[..], h, k);
      sums[t] := sums[t][2 * k := sums[t][2 * k] + ProductRe(input[..], h, 2 * k)];
      sums[t] := sums[t][2 * k + 1 := sums[t][2 * k + 1] + ProductIm(input[..], h, 2 * k)];
    }
  }

  method CopyTo(a: array<real>, at: nat, b: array<real>)
    requires at + b.Length <= a.Length && a != b
    modifies a
    ensures a[..at + b.Length] == old(a[..at]) + b[..]
  {
    for i := 0 to b.Length
      invariant a[..at] == old(a[..at]) && a[at..at + i] == b[..i]
    {
      a[at + i] := b[i];
    }
    assert a[..at + b.Length] == a[..at] + a[at..at + b.Length];
  }

  method Samples(values: seq<real>) returns (a: array<real>)
    ensures fresh(a) && a[..] == values
  {
    a := new real[|values|];
    for i := 0 to |values|
      invariant a[..i] == values[..i]
    {
      a[i] := values[i];
    }
  }

  method Counters(size: nat) returns (a: array<nat>)
    ensures fresh(a) && a.Length == size && forall i | 0 <= i < size :: a[i] == 0
  {
    a := new nat[size];
    for i := 0 to size
      invariant forall j | 0 <= j < i :: a[j] == 0
    {
      a[i] := 0;
    }
  }

  method ClearedBuffers(count: nat, size: nat) returns (a: array<seq<real>>)
    ensures fresh(a) && a.Length == count && forall s | 0 <= s < count :: a[s] == Zeros(size)
  {
    a := new seq<real>[count];
    for s := 0 to count
      invariant forall r | 0 <= r < s :: a[r] == Zeros(size)
    {
      a[s] := Zeros(size);
    }
  }

  /** The buffers of an object with a ring of `ring` sum buffers. */
  method Allocate(p: nat, ring: nat, buffer: seq<real>)
    returns (inbuf: array<real>, input: array<real>, sums: array<seq<real>>, readpos: array<nat>,
        partsPerCall: array<nat>)
    ensures fresh({inbuf, input}) && fresh(sums) && fresh({readpos, partsPerCall}) && inbuf != input
            && readpos != partsPerCall
    ensures inbuf.Length == p && input[..] == buffer && sums.Length == readpos.Length == ring
            && partsPerCall.Length == MAXPARTS
    ensures forall s | 0 <= s < ring :: sums[s] == Zeros(2 * p + 2) && readpos[s] == 0
    ensures forall i | 0 <= i < MAXPARTS :: partsPerCall[i] == 0
  {
    inbuf := Samples(Zeros(p));
    input := Samples(buffer);
    sums := ClearedBuffers(ring, 2 * p + 2);
    readpos := Counters(ring);
    partsPerCall := Counters(MAXPARTS);
  }

  class PartConv {
    const p: nat                        // partition size
    const n: nat                        // block size of the patch
    const tw: int -> Complex            // twiddle factors of the transforms of size 2 * p
    const nparts: nat
    const spectra: seq<seq<real>>       // transformed partitions of the impulse response
    const inbuf: array<real>
    const input: array<real>            // input block, transformed in place
    const sums: array<seq<real>>        // ring of nparts + 2 sum buffers, transformed in place
    const readpos: array<nat>
    const next: seq<nat>
    const prev: seq<nat>
    const partsPerCall: array<nat>
    var blocksize: nat                  // block size the work was last dealt for
    var inbufpos: nat
    var sumbuf: nat
    var curcall: nat
    var curpart: nat

    ghost const calls: nat              // calls per cycle
    ghost const response: seq<real>     // the impulse response in use
    ghost const stale: seq<real>        // the signal whose spectrum the input buffer holds at first
    ghost const firstCalls: nat         // calls per cycle that the work is dealt for at first
    ghost const leak: nat               // partitions multiplied with that signal before the first block is complete
    ghost const spectrumFacts: iset<Fact>        // see Carries
    ghost const soundFacts: iset<Fact>           // see Plays
    ghost const transformFacts: iset<Transform>  // see Transforms
    ghost var blocks: seq<seq<real>>    // the input blocks completed so far
    ghost var heard: seq<real>          // all input so far

    /**
     After the blocks `b` and `k` products of the stale signal, `row` is the spectrum of the products of
     block `c - i` with partition `i >= lo` and of the stale product due in block `c`. What the three sets
     of facts mean is kept apart from them (see `Means`), so that the verifier does not unroll the sums of
     every transform in sight.
     */
    ghost predicate Carries(row: seq<real>, b: seq<seq<real>>, c: int, lo: nat, k: nat) {
      Fact(row, b, c, lo, k) in spectrumFacts
    }

    /** `row` starts with the finished samples of block `c`, scaled up by the transform size. */
    ghost predicate Plays(row: seq<real>, b: seq<seq<real>>, c: int) { Fact(row, b, c, 0, 0) in soundFacts }

    /** `x` is the spectrum of `u`. */
    ghost predicate Transforms(x: seq<real>, u: seq<real>) { Transform(x, u) in transformFacts }

    /** All products due in block `c`, as samples. */
    ghost function Wave(b: seq<seq<real>>, c: int): (w: seq<real>)
      ensures |w| == 2 * p
    {
      Added(Partial(p, b, response, nparts, c, 0), Residue(p, stale, response, leak, c))
    }

    ghost predicate Means(row: seq<real>, b: seq<seq<real>>, c: int, lo: nat, k: nat) {
      Carries(row, b, c, lo, k)
      <==> |row| == 2 * p + 2
           && Cleaned(p, row) == Forward(tw, p,
             Added(Partial(p, b, response, nparts, c, lo), Residue(p, stale, response, k, c)))
    }

    ghost predicate MeansSound(row: seq<real>, b: seq<seq<real>>, c: int) {
      Plays(row, b, c) <==> 2 * p <= |row| && row[..2 * p] == Scaled((2 * p) as real, Wave(b, c))
    }

    ghost predicate MeansTransform(x: seq<real>, u: seq<real>) {
      Transforms(x, u) <==> |x| == 2 * p + 2 && Cleaned(p, x) == Forward(tw, p, u)
    }

    ghost function Leaking(): Leak { Leak(p, n, stale, response, leak) }

    /** The partitions cover the response and the calls of a cycle fill a partition. */
    ghost predicate Covers(parts: nat, turns: nat) { |response| <= parts * p && p == turns * n }

    /** The quantifier over one value each keeps the products out of sight until a proof mentions `Covers`. */
    ghost predicate Covered() {
      forall parts: nat, turns: nat | parts == nparts && turns == calls :: Covers(parts, turns)
    }

    ghost predicate Spec() {
      && 0 < n <= p && Twiddles(tw, 2 * p) && leak <= nparts && Covered()
      && (forall row, b, c, lo, k :: Means(row, b, c, lo, k)) && (forall row, b, c :: MeansSound(row, b, c))
      && (forall x, u :: MeansTransform(x, u))
    }

    /**
     Sets the object up for the impulse response `table`, cut after MAXPARTS partitions. `dealtFor` is
     the block size assumed when the work is first dealt. `buffer` is what the input buffer happens to
     hold: the source does not clear it.
     */
    constructor (p: nat, n: nat, tw: int -> Complex, table: seq<real>, dealtFor: nat, buffer: seq<real>)
      requires 0 < p && Twiddles(tw, 2 * p)
      requires 0 < n && p % n == 0 && p / n <= MAXPARTS
      requires 0 < dealtFor <= p && p / dealtFor <= MAXPARTS
      requires |buffer| == 2 * p + 2
      ensures Valid() && heard == [] && response == Cut(p, table)
      ensures this.p == p && this.n == n
      ensures Leaking() == Leak(p, n, Recovered(tw, p, buffer), Cut(p, table), LeakCount(p, n, |table|, dealtFor))
      ensures fresh({inbuf, input}) && fresh(sums) && fresh({readpos, partsPerCall})
    {
      ghost var h, k, stale := Cut(p, table), LeakCount(p, n, |table|, dealtFor), Recovered(tw, p, buffer);
      this.p, this.n, this.tw := p, n, tw;
      var spectra := AllSpectra(p, tw, table);
      var nparts := |spectra|;
      var next, prev := LinkRing(nparts + 2);
      this.nparts, this.spectra, this.next, this.prev := nparts, spectra, next, prev;
      var inbuf, input, sums, readpos, partsPerCall := Allocate(p, nparts + 2, buffer);
      this.inbuf, this.input, this.sums, this.readpos, this.partsPerCall := inbuf, input, sums, readpos, partsPerCall;
      blocksize, inbufpos, sumbuf, curcall, curpart := dealtFor, 0, 0, 0, 0;
      calls, response, this.stale, firstCalls := p / n, h, stale, p / dealtFor;
      leak := k;
      spectrumFacts := SpectrumFacts(tw, p, h, nparts, stale);
      soundFacts := SoundFacts(p, h, nparts, stale, k);
      transformFacts := TransformFacts(tw, p);
      blocks, heard := [], [];
      StaleTransform(tw, p, buffer);
      new;
      FirstDealWork(table, dealtFor);
    }

    /** What a new object holds. */
    ghost predicate Blank(dealtFor: nat)
      reads this, input, readpos, partsPerCall, sums
    {
      && sumbuf == curpart == curcall == inbufpos == 0 && blocks == [] && heard == [] && blocksize == dealtFor
      && Transforms(input[..], stale)
      && (forall i | 0 <= i < partsPerCall.Length :: partsPerCall[i] == 0)
      && (forall s | 0 <= s < readpos.Length :: readpos[s] == 0)
      && forall s | 0 <= s < sums.Length :: sums[s] == Zeros(2 * p + 2)
    }

    /** Deals the work of a newly allocated object. */
    method FirstDealWork(table: seq<real>, dealtFor: nat)
      requires Allocated(table, dealtFor) == true && Blank(dealtFor) == true
      modifies partsPerCall
      ensures Valid()
    {
      Established(table, dealtFor);
      Start();
    }

    /** The fields of a new object. */
    ghost predicate Allocated(table: seq<real>, dealtFor: nat) {
      && 0 < p && Twiddles(tw, 2 * p) && 0 < n && p % n == 0 && 0 < dealtFor <= p
      && calls == p / n <= MAXPARTS && firstCalls == p / dealtFor <= MAXPARTS
      && response == Cut(p, table) && leak == LeakCount(p, n, |table|, dealtFor)
      && nparts == |spectra| == PartCount(p, |table|) && spectra == Spectra(tw, p, response, nparts)
      && spectrumFacts == SpectrumFacts(tw, p, response, nparts, stale) && transformFacts == TransformFacts(tw, p)
      && soundFacts == SoundFacts(p, response, nparts, stale, leak)
      && inbuf.Length == p && input.Length == 2 * p + 2 && inbuf != input
      && sums.Length == readpos.Length == nparts + 2 && partsPerCall.Length == MAXPARTS && readpos != partsPerCall
      && |next| == |prev| == nparts + 2
      && forall s | 0 <= s < nparts + 2 ::
        next[s] == Slot(nparts + 2, s, 1) && prev[s] == Slot(nparts + 2, s, nparts + 1)
    }

    /** They mean what they should. */
    lemma Established(table: seq<real>, dealtFor: nat)
      requires Allocated(table, dealtFor) == true
      ensures Static() && (n == p ==> calls == 1)
    {
      LeakFits(p, n, |table|, dealtFor);
      DivPositive(p, dealtFor);
      Covering(table);
      forall row, b, c, lo, k ensures Means(row, b, c, lo, k) {}
      forall row, b, c ensures MeansSound(row, b, c) {}
      forall x, u ensures MeansTransform(x, u) {}
      forall i | 0 <= i < nparts ensures PieceReady(i) {
        ForwardClean(tw, p, Piece(p, response, i));
        assert MeansTransform(spectra[i], Piece(p, response, i));
      }
    }

    lemma Covering(table: seq<real>)
      requires 0 < p && 0 < n && p % n == 0 && calls == p / n && response == Cut(p, table)
               && nparts == PartCount(p, |table|)
      ensures Covered() && 0 < calls && n <= p && (n == p ==> calls == 1)
    {
      PartCountCovers(p, table);
      DivExact(p, n);
      MulAtLeast(p / n, n);
      if n == p { DivModUnique(p, p, 1, 0); }
      assert Covers(nparts, calls);
    }

    ghost predicate Unstarted()
      requires Static()
      reads this, input, readpos, partsPerCall, sums
    {
      && sumbuf == curpart == curcall == inbufpos == 0 && blocks == [] && heard == []
      && 0 < blocksize <= p && p / blocksize == firstCalls <= MAXPARTS && Transforms(input[..], stale)
      && (forall s | 0 <= s < nparts + 2 :: readpos[s] == 0) && (forall i | 0 <= i < MAXPARTS :: partsPerCall[i] == 0)
      && forall s | 0 <= s < nparts + 2 :: sums[s] == Zeros(2 * p + 2)
    }

    /** Deals the work of a newly allocated object. */
    method Start()
      requires Static() && Unstarted() == true
      modifies partsPerCall
      ensures Valid()
    {
      DivPositive(p, blocksize);
      if blocksize == n { CallsExact(); }
      DealWork(partsPerCall, nparts, p / blocksize);
      StartsSilent();
      assert Streamed(p, [], [], []);
      assert inbuf[..inbufpos] == [];
      assert Flows(inbufpos);
      assert Consistent(curcall, 0);
    }

    /** With all buffers zero, every buffer holds the products and samples of no input at all. */
    lemma StartsSilent()
      requires Static() && sumbuf == curpart == 0 && blocks == []
      requires forall s | 0 <= s < nparts + 2 :: sums[s] == Zeros(2 * p + 2)
      ensures Ledger(0) && (leak == 0 ==> Sounding(sumbuf, -1)) && Sounding(prev[sumbuf], -2)
    {
      forall q | 0 <= q <= nparts ensures Gathering(q) {
        SilentSpectrum(sums[Slot(nparts + 2, sumbuf, q)], q - 1, q + 1);
      }
      if leak == 0 { SilentBuffer(sums[sumbuf], -1); }
      SilentBuffer(sums[prev[sumbuf]], -2);
    }

    lemma SilentSpectrum(row: seq<real>, c: int, lo: nat)
      requires Spec() && row == Zeros(2 * p + 2)
      ensures Carries(row, [], c, lo, 0)
    {
      PartialSilent(p, response, nparts, c, lo);
      AddedZeros(Zeros(2 * p), Zeros(2 * p));
      ForwardZeros(tw, p, Zeros(2 * p));
      assert Cleaned(p, row) == row;
      assert Means(row, [], c, lo, 0);
    }

    lemma SilentBuffer(row: seq<real>, c: int)
      requires Spec() && row == Zeros(2 * p + 2) && (leak == 0 || c < -1)
      ensures Plays(row, [], c)
    {
      SilentWave(c);
      assert row[..2 * p] == Scaled((2 * p) as real, Zeros(2 * p));
      assert MeansSound(row, [], c);
    }

    /**
     What is fixed once the impulse response is set. No method can change it; the equation lets the
     verifier carry it along as one fact.
     */
    ghost predicate Static() { Fixed() == true }

    /** Partition `i` is transformed, and clean. */
    ghost predicate PieceReady(i: int)
      requires 0 <= i < |spectra|
    {
      Transforms(spectra[i], Piece(p, response, i)) && Clean(p, spectra[i])
    }

    ghost predicate Fixed() {
      && Spec() && 0 < calls <= MAXPARTS
      && 0 < firstCalls <= MAXPARTS && leak == FirstDealt(nparts, firstCalls, calls - 1)
      && |spectra| == nparts <= MAXPARTS
      && (forall i | 0 <= i < nparts :: PieceReady(i))
      && inbuf.Length == p && input.Length == 2 * p + 2 && inbuf != input
      && sums.Length == nparts + 2
      && readpos.Length == nparts + 2 && partsPerCall.Length == MAXPARTS && readpos != partsPerCall
      && |next| == |prev| == nparts + 2
      && (forall s | 0 <= s < nparts + 2 ::
        next[s] == Slot(nparts + 2, s, 1) && prev[s] == Slot(nparts + 2, s, nparts + 1))
    }

    ghost predicate Shape()
      reads `sumbuf, `curpart
    {
      Static() && sumbuf < nparts + 2 && curpart <= nparts
    }

    /** The first partition that is in the buffer `q` places ahead: partition `q` itself once it is done in this
        cycle. */
    ghost function Lowest(q: nat): nat
      reads this`curpart
    {
      if q < curpart then q else q + 1
    }

    /** How many partitions have been multiplied with the stale signal. */
    ghost function Leaked(): nat
      reads `curpart, `blocks
    {
      if blocks == [] then curpart else leak
    }

    /** The block that the input buffer holds the spectrum of. */
    ghost function Current(): seq<real>
      reads `blocks
    {
      if blocks == [] then stale else BlockAt(blocks, |blocks| - 1)
    }

    /** The buffer `q` places ahead holds the spectrum of exactly the products done so far. */
    ghost predicate Gathering(q: nat)
      requires Static() && sumbuf < nparts + 2 && q <= nparts
      reads `sumbuf, `curpart, `blocks, sums
    {
      Carries(sums[Slot(nparts + 2, sumbuf, q)], blocks, |blocks| - 1 + q, Lowest(q), Leaked())
    }

    /** Buffer `s` holds the finished samples of output block `c`, scaled up by the transform size. */
    ghost predicate Sounding(s: int, c: int)
      requires 0 <= s < sums.Length
      reads `blocks, sums
    {
      Plays(sums[s], blocks, c)
    }

    /** All buffers from `first` places ahead gather their products. */
    ghost predicate Ledger(first: nat)
      requires Static() && sumbuf < nparts + 2
      reads `sumbuf, `curpart, `blocks, sums
    {
      forall q | first <= q <= nparts :: Gathering(q)
    }

    lemma SpectrumStep(b: seq<seq<real>>, c: int, i: nat, k: nat, row: seq<real>, x: seq<real>, piece: seq<real>)
      requires Spec() && i < nparts && b != [] && c == |b| - 1 + i
      requires Carries(row, b, c, i + 1, k) && Transforms(x, BlockAt(b, |b| - 1))
               && Transforms(piece, Piece(p, response, i)) && Clean(p, piece)
      ensures |row| == |x| == |piece| == 2 * p + 2 && Carries(Accumulated(p, row, x, piece), b, c, i, k)
    {
      assert Means(row, b, c, i + 1, k) && MeansTransform(x, BlockAt(b, |b| - 1))
        && MeansTransform(piece, Piece(p, response, i));
      assert Cleaned(p, x) == Forward(tw, p, BlockAt(b, c - i)) by { assert c - i == |b| - 1; }
      AccumulatedCleaned(p, row, x, piece);
      ProductStep(tw, p, b, response, nparts, c, i, Residue(p, stale, response, k, c), Cleaned(p, row), Cleaned(p, x),
        piece);
      assert Means(Accumulated(p, row, x, piece), b, c, i, k);
    }

    /** Before the first block is complete, the product is one of the stale signal. */
    lemma StaleStep(b: seq<seq<real>>, c: int, i: nat, row: seq<real>, x: seq<real>, piece: seq<real>)
      requires Spec() && i < nparts && b == [] && c == i - 1
      requires Carries(row, b, c, i + 1, i) && Transforms(x, stale) && Transforms(piece, Piece(p, response, i))
      requires Clean(p, piece)
      ensures |row| == |x| == |piece| == 2 * p + 2 && Carries(Accumulated(p, row, x, piece), b, c, i, i + 1)
    {
      assert Means(row, b, c, i + 1, i) && MeansTransform(x, stale) && MeansTransform(piece, Piece(p, response, i));
      AccumulatedCleaned(p, row, x, piece);
      LeakStep(tw, p, stale, response, nparts, c, i, Cleaned(p, row), Cleaned(p, x), piece);
      assert Means(Accumulated(p, row, x, piece), b, c, i, i + 1);
    }

    /** One product, of the current block or of the stale signal. */
    lemma AnyStep(b: seq<seq<real>>, c: int, i: nat, k: nat, k': nat, row: seq<real>, x: seq<real>, piece: seq<real>)
      requires Spec() && i < nparts && c == |b| - 1 + i && Carries(row, b, c, i + 1, k)
      requires Transforms(x, if b == [] then stale else BlockAt(b, |b| - 1))
      requires Transforms(piece, Piece(p, response, i)) && Clean(p, piece)
      requires if b == [] then k == i && k' == i + 1 else k' == k
      ensures |row| == |x| == |piece| == 2 * p + 2 && Carries(Accumulated(p, row, x, piece), b, c, i, k')
    {
      if b == [] { StaleStep(b, c, i, row, x, piece); } else { SpectrumStep(b, c, i, k, row, x, piece); }
    }

    /** One more stale product is due in one block only. */
    lemma SameSpectrum(row: seq<real>, b: seq<seq<real>>, c: int, q: nat, lo: nat, i: nat)
      requires Spec() && b == [] && c == |b| - 1 + q && q != i && Carries(row, b, c, lo, i)
      ensures Carries(row, b, c, lo, i + 1)
    {
      assert Means(row, b, c, lo, i);
      assert Means(row, b, c, lo, i + 1);
    }

    /** Adds the product with partition `i` to the buffer `i` places ahead. */
    method AddProduct(i: nat, ghost c: int, ghost k: nat, ghost k': nat)
      requires Shape() && i < nparts && c == |blocks| - 1 + i && Transforms(input[..], Current())
      requires Carries(sums[Slot(nparts + 2, sumbuf, i)], blocks, c, i + 1, k)
      requires if blocks == [] then k == i && k' == i + 1 else k' == k
      modifies sums
      ensures Carries(sums[Slot(nparts + 2, sumbuf, i)], blocks, c, i, k')
      ensures forall s | 0 <= s < nparts + 2 && s != Slot(nparts + 2, sumbuf, i) :: sums[s] == old(sums[s])
    {
      var t := (sumbuf + i) % (nparts + 2);
      SlotMod(nparts + 2, sumbuf, i);
      assert PieceReady(i);
      AnyStep(blocks, c, i, k, k', sums[t], input[..], spectra[i]);
      MultiplyInto(sums, t, p, input, spectra[i]);
    }

    /** One product: partition `curpart` joins the buffer that many places ahead. */
    method MultiplyNext(ghost first: nat)
      requires Shape() && first <= curpart < nparts
      requires Ledger(first) && Transforms(input[..], Current())
      modifies sums, `curpart
      ensures Shape() && Ledger(first) && curpart == old(curpart) + 1
      ensures forall s | 0 <= s < nparts + 2 && s != Slot(nparts + 2, sumbuf, old(curpart)) :: sums[s] == old(sums[s])
    {
      ghost var i := curpart;
      assert Gathering(i);
      AddProduct(curpart, |blocks| - 1 + i, Leaked(), if blocks == [] then i + 1 else leak);
      curpart := curpart + 1;
      forall q | first <= q <= nparts && q != i ensures Gathering(q) {
        assert old(Gathering(q));
        StillGathers(q, i, old(sums[Slot(nparts + 2, sumbuf, q)]));
      }
      assert Gathering(i);
    }

    /** A buffer that the product with partition `i` did not go to. */
    lemma StillGathers(q: nat, i: nat, row: seq<real>)
      requires Shape() && curpart == i + 1 && q <= nparts && q != i && row == sums[Slot(nparts + 2, sumbuf, q)]
      requires Carries(row, blocks, |blocks| - 1 + q, if q < i then q else q + 1, if blocks == [] then i else leak)
      ensures Gathering(q)
    {
      if blocks == [] { SameSpectrum(row, blocks, |blocks| - 1 + q, q, Lowest(q), i); }
    }

    /** This call's share of the products. The clamp to `nparts` is the source's. */
    method ConvolveShare(ghost first: nat)
      requires Shape() && curcall < MAXPARTS && first <= 1
      requires Ledger(first) && (first <= curpart || nparts == 0)
      requires Transforms(input[..], Current())
      modifies sums, `curpart
      ensures Shape() && Ledger(first)
      ensures curpart
              == if old(curpart) + partsPerCall[curcall] > nparts then nparts else old(curpart) + partsPerCall[curcall]
      ensures sums[prev[sumbuf]] == old(sums[prev[sumbuf]])
      ensures first == 1 ==> sums[sumbuf] == old(sums[sumbuf])
    {
      var endpart := curpart + partsPerCall[curcall];
      if endpart > nparts {
        endpart := nparts;
      }
      while curpart < endpart
        invariant old(curpart) <= curpart <= endpart <= nparts
        invariant Shape() && Ledger(first)
        invariant sums[prev[sumbuf]] == old(sums[prev[sumbuf]])
        invariant first == 1 ==> sums[sumbuf] == old(sums[sumbuf])
      {
        MultiplyNext(first);
      }
    }

    lemma WaveFromSpectrum(b: seq<seq<real>>, c: int, lo: nat, k: nat, row: seq<real>, tail: seq<real>)
      requires Spec() && (lo == 0 || nparts == 0) && Carries(row, b, c, lo, k)
      requires 0 <= c + 1 < k <==> 0 <= c + 1 < leak
      ensures Plays(Backward(tw, p, row) + tail, b, c)
    {
      assert Means(row, b, c, lo, k);
      assert Partial(p, b, response, nparts, c, 0) == Partial(p, b, response, nparts, c, lo);
      BackwardCleaned(tw, p, row);
      InversionAll(tw, p, Wave(b, c));
      assert MeansSound(Backward(tw, p, row) + tail, b, c);
    }

    /** The current buffer has all its products: transform it back in place. */
    method FinishCurrent(tail: seq<real>)
      requires Shape() && Ledger(0) && (curpart > 0 || nparts == 0) && |tail| == 2
      requires blocks == [] ==> (curpart > 0 <==> leak > 0)
      modifies sums
      ensures Shape() && Ledger(1) && Sounding(sumbuf, |blocks| - 1)
      ensures sums[prev[sumbuf]] == old(sums[prev[sumbuf]])
    {
      assert Gathering(0);
      TransformBack(tail, Lowest(0), Leaked());
      forall q | 1 <= q <= nparts ensures Gathering(q) {
        assert old(Gathering(q));
        assert Slot(nparts + 2, sumbuf, q) != sumbuf;
      }
    }

    method TransformBack(tail: seq<real>, ghost lo: nat, ghost k: nat)
      requires Shape() && (lo == 0 || nparts == 0) && Carries(sums[sumbuf], blocks, |blocks| - 1, lo, k)
      requires 0 <= |blocks| < k <==> 0 <= |blocks| < leak
      modifies sums
      ensures Sounding(sumbuf, |blocks| - 1)
      ensures forall s | 0 <= s < nparts + 2 && s != sumbuf :: sums[s] == old(sums[s])
    {
      WaveFromSpectrum(blocks, |blocks| - 1, lo, k, sums[sumbuf], tail);
      sums[sumbuf] := Backward(tw, p, sums[sumbuf]) + tail;
    }

    /** The buffer `q` places after `base` holds what the cycle of the new `block` starts from. */
    ghost predicate Awaiting(base: int, block: seq<real>, q: nat)
      requires q <= nparts && 0 <= base < nparts + 2 == sums.Length
      reads `blocks, sums
    {
      Carries(sums[Slot(nparts + 2, base, q)], blocks + [block], |blocks| + q, q + 1, leak)
    }

    /** Everything has been read out of `prev`: clear it. */
    method ClearPrev(ghost block: seq<real>)
      requires Shape() && Ledger(1)
      requires if blocks == [] then curpart == leak else curpart == nparts
      modifies sums
      ensures forall q | 0 <= q <= nparts :: Awaiting(next[sumbuf], block, q)
      ensures sums[sumbuf] == old(sums[sumbuf])
    {
      sums[prev[sumbuf]] := Zeros(2 * p + 2);
      forall q | 0 <= q <= nparts ensures Awaiting(next[sumbuf], block, q) {
        if q < nparts {
          assert old(Gathering(q + 1));
          assert Slot(nparts + 2, sumbuf, q + 1) != prev[sumbuf];
          assert Gathering(q + 1);
        }
        Awaits(block, q);
      }
    }

    lemma Awaits(block: seq<real>, q: nat)
      requires Shape() && q <= nparts && sums[prev[sumbuf]] == Zeros(2 * p + 2) && (q < nparts ==> Gathering(q + 1))
      requires if blocks == [] then curpart == leak else curpart == nparts
      ensures Awaiting(next[sumbuf], block, q)
    {
      var s := Slot(nparts + 2, next[sumbuf], q);
      if q < nparts {
        assert s == Slot(nparts + 2, sumbuf, q + 1);
        NextSpectrum(sums[s], blocks, block, curpart, q, |blocks| - 1 + (q + 1), Lowest(q + 1), Leaked());
      } else {
        assert s == prev[sumbuf];
        EmptySpectrum(sums[s], blocks + [block], |blocks| + q);
      }
    }

    /** Counts `block` as arrived: every buffer ahead is one place closer. */
    ghost method CountBlock(block: seq<real>, c: int)
      requires Shape() && curpart == 0 && c == |blocks| - 1
      requires forall q | 0 <= q <= nparts :: Awaiting(sumbuf, block, q)
      requires Sounding(prev[sumbuf], c)
      modifies `blocks
      ensures blocks == old(blocks) + [block] && Ledger(0) && Sounding(prev[sumbuf], c)
    {
      SameWave(sums[prev[sumbuf]], blocks, block, c);
      blocks := blocks + [block];
      forall q | 0 <= q <= nparts ensures Gathering(q) { assert old(Awaiting(sumbuf, block, q)); }
    }

    /** Clears `prev` and steps on to the next buffer. */
    method Advance(ghost block: seq<real>)
      requires Shape() && Ledger(1) && Sounding(sumbuf, |blocks| - 1)
      requires if blocks == [] then curpart == leak else curpart == nparts
      modifies sums, `sumbuf, `curpart, `blocks
      ensures Shape() && Ledger(0) && curpart == 0
      ensures blocks == old(blocks) + [block] && Sounding(prev[sumbuf], |blocks| - 2)
    {
      ghost var current := sumbuf;
      ClearPrev(block);
      sumbuf := next[sumbuf];
      curpart := 0;
      assert prev[sumbuf] == current;
      CountBlock(block, |blocks| - 1);
    }

    lemma NextSpectrum(row: seq<real>, b: seq<seq<real>>, block: seq<real>, done: nat, q: nat, c: int, lo: nat, k: nat)
      requires Spec() && q < nparts && (b == [] || done == nparts) && c == |b| + q
               && lo == (if q + 1 < done then q + 1 else q + 2) && k == leak
      requires Carries(row, b, c, lo, k)
      ensures Carries(row, b + [block], |b| + q, q + 1, leak)
    {
      assert Means(row, b, c, lo, k);
      SameSums(p, b, block, response, nparts, c, lo, q + 1);
      assert c == |b| + q;
      assert Means(row, b + [block], c, q + 1, leak);
    }

    lemma EmptySpectrum(row: seq<real>, b: seq<seq<real>>, c: int)
      requires Spec() && nparts <= c && row == Zeros(2 * p + 2)
      ensures Carries(row, b, c, nparts + 1, leak)
    {
      AddedZeros(Zeros(2 * p), Zeros(2 * p));
      ForwardZeros(tw, p, Zeros(2 * p));
      assert Means(row, b, c, nparts + 1, leak);
    }

    lemma SameWave(row: seq<real>, b: seq<seq<real>>, block: seq<real>, c: int)
      requires Spec() && c < |b| && Plays(row, b, c)
      ensures Plays(row, b + [block], c)
    {
      PartialExtended(p, b, block, response, nparts, c, 0);
      assert MeansSound(row, b, c);
      assert MeansSound(row, b + [block], c);
    }

    /** Copies the gathered block, pads it with zeros and transforms it in place. */
    method LoadInput()
      requires Shape()
      modifies input
      ensures Transforms(input[..], inbuf[..])
    {
      for i := 0 to p
        invariant forall j | 0 <= j < i :: input[j] == inbuf[j]
        invariant inbuf[..] == old(inbuf[..])
      {
        input[i] := inbuf[i];
      }
      for i := p to 2 * p + 2
        invariant forall j | 0 <= j < p :: input[j] == inbuf[j]
        invariant forall j | p <= j < i :: input[j] == 0.0
        invariant inbuf[..] == old(inbuf[..])
      {
        input[i] := 0.0;
      }
      ForwardCongruent(tw, p, input[..], inbuf[..]);
      var transformed := Forward(tw, p, input[..]);
      for i := 0 to 2 * p + 2
        invariant forall j | 0 <= j < i :: input[j] == transformed[j]
        invariant inbuf[..] == old(inbuf[..])
      {
        input[i] := transformed[i];
      }
      SpectrumTransforms(input[..], inbuf[..]);
    }

    lemma SpectrumTransforms(x: seq<real>, u: seq<real>)
      requires Spec() && x == Forward(tw, p, u)
      ensures Transforms(x, u)
    {
      ForwardClean(tw, p, u);
      assert MeansTransform(x, u);
    }

    /** `partsPerCall` holds an even deal for the calls of a cycle. */
    ghost predicate WorkDealt()
      requires Static()
      reads partsPerCall
    {
      forall i | 0 <= i < calls :: partsPerCall[i] == Share(nparts, calls, i)
    }

    ghost predicate InputLoaded()
      reads `blocks, input
    {
      Transforms(input[..], Current())
    }

    /** Re-deals the work if the block size has changed, and takes over the gathered input. */
    method Reload(m: nat)
      requires Shape() && m == n
      requires blocksize == n ==> WorkDealt()
      modifies input, partsPerCall, `curcall, `inbufpos, `blocksize
      ensures Shape() && inbufpos == curcall == 0
      ensures Transforms(input[..], inbuf[..])
      ensures blocksize == n && WorkDealt()
    {
      if blocksize != m {
        blocksize := m;
        CallsExact();
        DealWork(partsPerCall, nparts, p / blocksize);
      }
      inbufpos := 0;
      curcall := 0;
      LoadInput();
    }

    /** The input buffer is full: begin a new cycle. */
    method BeginCycle(m: nat)
      requires Shape() && Ledger(1) && Sounding(sumbuf, |blocks| - 1) && m == n
      requires if blocks == [] then curpart == leak else curpart == nparts
      requires blocksize == n ==> WorkDealt()
      modifies sums, readpos, input, partsPerCall, `sumbuf, `curpart, `curcall, `inbufpos, `blocksize, `blocks
      ensures Shape() && Ledger(0) && Sounding(prev[sumbuf], |blocks| - 2)
      ensures blocks == old(blocks) + [inbuf[..]] && InputLoaded()
      ensures inbufpos == curcall == curpart == 0
      ensures blocksize == n && WorkDealt()
      ensures readpos[sumbuf] == 0 && readpos[prev[sumbuf]] == p
    {
      Reload(m);
      Advance(inbuf[..]);
      Rewind();
    }

    /** Output starts with the first half of the current buffer and the second half of the previous one. */
    method Rewind()
      requires Static() && sumbuf < nparts + 2
      modifies readpos
      ensures readpos[sumbuf] == 0 && readpos[prev[sumbuf]] == p
    {
      readpos[sumbuf] := 0;
      readpos[prev[sumbuf]] := p;
    }

    /**
     All input so far is the completed blocks followed by what is gathered. As in `Valid`, the quantifier
     over the one value `inbufpos` only keeps `Flows` folded.
     */
    ghost predicate Stream()
      reads `blocks, `heard, `inbufpos, inbuf
    {
      inbufpos <= inbuf.Length && forall k: nat | k == inbufpos :: Flows(k)
    }

    ghost predicate Flows(gathered: nat)
      requires gathered <= inbuf.Length
      reads `blocks, `heard, inbuf
    {
      Streamed(p, blocks, heard, inbuf[..gathered])
    }

    /** Gathers one block of input. */
    method Gather(inp: array<real>)
      requires Shape() && Stream() && inp.Length == n && inbufpos + n <= p && inp != inbuf
      modifies inbuf, `inbufpos, `heard
      ensures Shape() && Stream()
      ensures heard == old(heard) + old(inp[..]) && inbufpos == old(inbufpos) + n
    {
      assert Flows(inbufpos);
      StreamGrows(p, blocks, heard, inbuf[..inbufpos], inp[..]);
      CopyTo(inbuf, inbufpos, inp);
      inbufpos := inbufpos + n;
      heard := heard + inp[..];
      assert Flows(inbufpos);
    }

    /** A finished block plus the tail of the one before it is the direct convolution and the echo. */
    lemma BlockSample(b: seq<seq<real>>, x: seq<real>, rest: seq<real>, r: int, t: int)
      requires Spec() && Streamed(p, b, x, rest) && 0 <= r < p && t == (|b| - 1) * p + r + (p - n) && b != []
      ensures Sample(Wave(b, |b| - 1)[r] + Wave(b, |b| - 2)[p + r], x, response, Leaking(), t) == true
    {
      assert Covers(nparts, calls);
      WaveAt(b, |b| - 1, r);
      WaveAt(b, |b| - 2, p + r);
      BlockSum(Leaking(), b, x, rest, nparts, r, t, Wave(b, |b| - 1)[r], Wave(b, |b| - 2)[p + r]);
    }

    lemma WaveAt(b: seq<seq<real>>, c: int, j: int)
      requires 0 <= j < 2 * p
      ensures Wave(b, c)[j] == BlockPart(Leaking(), b, nparts, c, j)
    {}

    lemma SilentWave(c: int)
      ensures Wave([], c) == Residue(p, stale, response, leak, c)
    {
      PartialSilent(p, response, nparts, c, 0);
      AddedZeros(Zeros(2 * p), Residue(p, stale, response, leak, c));
    }

    /** Where a call stands once its input is gathered and, if need be, its cycle begun. */
    ghost predicate InCall()
      requires Static() && sumbuf < nparts + 2
      reads `sumbuf, `curcall, `inbufpos, `blocks, `blocksize, readpos, partsPerCall
    {
      && readpos[sumbuf] == curcall * n
      && if blocks == [] then
           curcall + 1 < calls && inbufpos == (curcall + 1) * n && readpos[prev[sumbuf]] == curcall * n
         else
           curcall < calls && inbufpos == curcall * n && readpos[prev[sumbuf]] == p + curcall * n && blocksize == n
           && WorkDealt()
    }

    /** The positions of call `j` of a cycle. */
    lemma Positions(j: nat)
      requires Static()
      ensures j < calls ==> j * n + n <= p
      ensures j + 1 < calls <==> j * n + n < p
      ensures j >= 1 ==> (j - 1) * n + n == j * n
      ensures (j + 1) * n == j * n + n
      ensures j < calls <==> j * n < p
    {
      assert Covers(nparts, calls);
      CallArithmetic(n, p, calls, j);
    }

    lemma CallsExact()
      requires Static()
      ensures p / n == calls
    {
      assert Covers(nparts, calls);
      DivModUnique(p, n, calls, 0);
    }

    lemma PlaysLength(row: seq<real>, b: seq<seq<real>>, c: int)
      requires Spec() && Plays(row, b, c)
      ensures 2 * p <= |row|
    {
      assert MeansSound(row, b, c);
    }

    /** Before the first block is complete, only the stale signal is heard. */
    lemma StaleSample(j: int, k: int)
      requires Spec() && 0 <= j < p - n && 0 <= k < 2 * p
      ensures Sample(Wave([], -1)[j] + Wave([], -2)[k], heard, response, Leaking(), j)
    {
      SilentWave(-1);
      SilentWave(-2);
      DirectBeforeStart(heard, response, j - (p - n));
    }

    lemma MixedWaves(row: seq<real>, row': seq<real>, b: seq<seq<real>>, c: int, r: int, r': int, scale: real)
      requires Spec() && 0 <= r < 2 * p && 0 <= r' < 2 * p && scale == 1.0 / (2 * p) as real
      requires Plays(row, b, c) && Plays(row', b, c - 1)
      ensures 2 * p <= |row| && 2 * p <= |row'| && Blend(row[r], row'[r'], scale) == Wave(b, c)[r] + Wave(b, c - 1)[r']
    {
      assert MeansSound(row, b, c) && MeansSound(row', b, c - 1);
      Unscaled(p, row, row', Wave(b, c), Wave(b, c - 1), r, r', scale);
    }

    lemma ReadInRange()
      requires Shape() && InCall()
      ensures readpos[sumbuf] + n <= p && readpos[prev[sumbuf]] + n <= 2 * p
    {
      Positions(curcall);
    }

    lemma OutputTime(i: int)
      requires Shape() && Stream() && InCall() && 0 <= i < n
      ensures blocks == [] ==> |heard| - p + i == readpos[sumbuf] + i - (p - n) < 0
      ensures blocks != [] ==> |heard| - p + i == (|blocks| - 1) * p + (readpos[sumbuf] + i)
      ensures blocks != [] ==> readpos[prev[sumbuf]] == p + readpos[sumbuf]
    {
      assert Flows(inbufpos);
      if blocks == [] {
        Positions(curcall);
        Positions(curcall + 1);
      } else {
        assert (|blocks| - 1) * p == |blocks| * p - p;
      }
    }

    // What the output loop computes is the direct convolution, late by one partition less one block, and the echo.

    lemma StaleSounds(row: seq<real>, row': seq<real>, j: int, k: int, scale: real)
      requires Spec() && Plays(row, [], -1) && Plays(row', [], -2) && scale == 1.0 / (2 * p) as real
      requires 0 <= j < p - n && 0 <= k < 2 * p <= |row| && 2 * p <= |row'|
      ensures Sample(Blend(row[j], row'[k], scale), heard, response, Leaking(), j) == true
    {
      MixedWaves(row, row', [], -1, j, k, scale);
      StaleSample(j, k);
    }

    lemma BlockSounds(row: seq<real>, row': seq<real>, r: int, scale: real, t: int)
      requires Spec() && Stream() && blocks != [] && scale == 1.0 / (2 * p) as real
      requires Plays(row, blocks, |blocks| - 1) && Plays(row', blocks, |blocks| - 2)
      requires 0 <= r < p && 2 * p <= |row| && 2 * p <= |row'| && t == (|blocks| - 1) * p + r + (p - n)
      ensures Sample(Blend(row[r], row'[p + r], scale), heard, response, Leaking(), t) == true
    {
      MixedWaves(row, row', blocks, |blocks| - 1, r, p + r, scale);
      assert Flows(inbufpos);
      BlockSample(blocks, heard, inbuf[..inbufpos], r, t);
    }

    /** The rows that are put out, and where from. */
    ghost predicate Putting(row: seq<real>, row': seq<real>, at: int, at': int, scale: real)
      requires Shape()
      reads `sumbuf, `curpart, `blocks, readpos
    {
      && scale == 1.0 / (2 * p) as real && at == readpos[sumbuf] && at' == readpos[prev[sumbuf]]
      && 0 <= at && 0 <= at' && at + n <= p && at' + n <= 2 * p <= |row| && 2 * p <= |row'|
      && Plays(row, blocks, |blocks| - 1) && Plays(row', blocks, |blocks| - 2)
    }

    lemma EmittedSample(row: seq<real>, row': seq<real>, at: int, at': int, scale: real, i: int)
      requires Shape() && Stream() && InCall() && 0 <= i < n && Putting(row, row', at, at', scale)
      ensures Sample(Blend(row[at + i], row'[at' + i], scale), heard, response, Leaking(), |heard| - n + i) == true
    {
      OutputTime(i);
      if blocks == [] {
        StaleSounds(row, row', at + i, at' + i, scale);
      } else {
        BlockSounds(row, row', at + i, scale, |heard| - n + i);
      }
    }

    lemma EmittedBlock(row: seq<real>, row': seq<real>, at: int, at': int, scale: real, start: nat)
      requires Shape() && Stream() && InCall() && Putting(row, row', at, at', scale) && start + n == |heard|
      ensures Convolved(Mixed(row, at, row', at', n, scale), start, heard, response, Leaking()) == true
    {
      var mixed := Mixed(row, at, row', at', n, scale);
      forall i | 0 <= i < n ensures Sample(mixed[i], heard, response, Leaking(), start + i) {
        EmittedSample(row, row', at, at', scale, i);
        assert mixed[i] == Blend(row[at + i], row'[at' + i], scale);
      }
    }

    /** Adds the first half of the current buffer to the second half of the previous one. */
    method Emit(out: array<real>, ghost start: nat)
      requires start + n == |heard|
      requires Shape() && Stream() && InCall() && out.Length == n && out != inbuf
      requires Sounding(sumbuf, |blocks| - 1) && Sounding(prev[sumbuf], |blocks| - 2)
      modifies out
      ensures Delivered(out, start)
    {
      var scale := 1.0 / (2 * p) as real;
      ReadInRange();
      PlaysLength(sums[sumbuf], blocks, |blocks| - 1);
      PlaysLength(sums[prev[sumbuf]], blocks, |blocks| - 2);
      EmittedBlock(sums[sumbuf], sums[prev[sumbuf]], readpos[sumbuf], readpos[prev[sumbuf]], scale, start);
      AddBuffers(out, sums, sumbuf, readpos[sumbuf], prev[sumbuf], readpos[prev[sumbuf]], scale);
    }

    /** Where the object stands between calls, but for `fed` samples: `curcall` calls of the current cycle are done. */
    ghost predicate AtRest(fed: nat)
      requires Shape()
      reads this, readpos, partsPerCall
    {
      && readpos[sumbuf] == curcall * n
      && (blocksize == n ==> WorkDealt())
      && if blocks == [] then
           && curcall < calls && inbufpos == curcall * n + fed && readpos[prev[sumbuf]] == curcall * n
           && FirstDeal() && curpart == FirstDealt(nparts, firstCalls, curcall)
         else
           && 1 <= curcall <= calls && inbufpos == (curcall - 1) * n + fed && readpos[prev[sumbuf]] == p + curcall * n
           && blocksize == n && curpart == Dealt(nparts, calls, curcall)
    }

    /** The work as it is dealt at first; calls beyond those get none. */
    ghost predicate FirstDeal()
      requires Static()
      reads partsPerCall
    {
      forall i | 0 <= i < MAXPARTS :: partsPerCall[i] == if i < firstCalls then Share(nparts, firstCalls, i) else 0
    }

    /** The invariant of a state with `done` calls of the current cycle done, and `fed` samples of the next taken in. */
    ghost predicate Consistent(done: nat, fed: nat)
      reads this, inbuf, input, sums, readpos, partsPerCall
    {
      && done == curcall
      && Shape() && Stream() && AtRest(fed)
      && Ledger(1) && Sounding(prev[sumbuf], |blocks| - 2)
      && (if curcall == 0 then Ledger(0) && (leak == 0 ==> Sounding(sumbuf, |blocks| - 1))
          else Sounding(sumbuf, |blocks| - 1))
      && (curcall > 0 && nparts > 0 ==> curpart > 0)
      && InputLoaded()
    }

    /**
     The invariant of every state between calls. The quantifier over the one value `curcall` only keeps
     `Consistent` folded until a proof mentions it.
     */
    ghost predicate Valid()
      reads this, inbuf, input, sums, readpos, partsPerCall
    {
      forall done: nat | done == curcall :: Consistent(done, 0)
    }

    /** What call `call` of a cycle finds, apart from the sum buffers: the stream, its place in the cycle, its input
        and the deal. */
    ghost predicate Poised(call: nat)
      requires Static() && sumbuf < nparts + 2
      reads `sumbuf, `curcall, `inbufpos, `blocks, `blocksize, `heard, inbuf, input, readpos, partsPerCall
    {
      && call == curcall && Stream() && InCall() && InputLoaded()
      && (blocksize == n ==> WorkDealt()) && (blocks == [] ==> FirstDeal())
    }

    /** The partitions done before call `call` of this cycle. */
    ghost function DoneBefore(call: nat): nat
      requires Static()
      reads `blocks
    {
      if blocks == [] then FirstDealt(nparts, firstCalls, call) else Dealt(nparts, calls, call)
    }

    /**
     The invariant of a call that is about to do its share of the products. As in `Valid`, the quantifier
     over the one value `curcall` keeps `Poised` folded.
     */
    ghost predicate Ready()
      reads this, inbuf, input, sums, readpos, partsPerCall
    {
      && Shape() && (forall call: nat | call == curcall :: Poised(call))
      && Sounding(prev[sumbuf], |blocks| - 2)
      && (if curcall == 0 then Ledger(0) && curpart == 0 else Ledger(1) && Sounding(sumbuf, |blocks| - 1))
      && (curcall > 0 && nparts > 0 ==> curpart > 0) && curpart == DoneBefore(curcall)
    }

    /** The input buffer is full and all products of the cycle are done. */
    ghost predicate Full()
      reads this, inbuf, sums, partsPerCall
    {
      && Shape() && Stream() && inbufpos == p && (if blocks == [] then curpart == leak else curpart == nparts)
      && Ledger(1) && Sounding(sumbuf, |blocks| - 1)
      && (blocksize == n ==> WorkDealt())
    }

    /** Gathers one block into an object at rest. */
    method Take(inp: array<real>)
      requires Valid() && inp.Length == n && inp != inbuf
      modifies inbuf, `inbufpos, `heard
      ensures heard == old(heard) + old(inp[..]) && Consistent(curcall, n)
    {
      assert Consistent(curcall, 0);
      RoomLeft(0);
      Gather(inp);
    }

    /** The next block fits, and fills the buffer in the last call of a cycle. */
    lemma RoomLeft(fed: nat)
      requires Consistent(curcall, fed)
      ensures inbufpos - fed + n <= p
      ensures inbufpos - fed + n == p <==> curcall == if blocks == [] then calls - 1 else calls
    {
      Positions(curcall);
      if curcall > 0 { Positions(curcall - 1); }
    }

    lemma NowFull()
      requires Consistent(curcall, n) && inbufpos >= p
      ensures Full()
    {
      RoomLeft(n);
      DealtAll(nparts, calls, calls);
    }

    lemma NowReady()
      requires Consistent(curcall, n) && inbufpos < p
      ensures Ready()
    {
      RoomLeft(n);
      Positions(curcall);
      if curcall > 0 { Positions(curcall - 1); }
      assert Poised(curcall);
    }

    method StartCycle(m: nat)
      requires Full() && m == n
      modifies sums, readpos, input, partsPerCall, `sumbuf, `curpart, `curcall, `inbufpos, `blocksize, `blocks
      ensures Ready() && heard == old(heard)
    {
      assert inbuf[..] == inbuf[..inbufpos];
      assert Flows(inbufpos);
      StreamTurns(p, blocks, heard, inbuf[..]);
      BeginCycle(m);
      assert inbuf[..inbufpos] == [];
      assert Flows(inbufpos);
      assert Poised(curcall);
    }

    /** Gathers the input and begins a cycle when it is complete. */
    method StartCall(inp: array<real>)
      requires Valid() && inp.Length == n && inp != inbuf
      modifies this, inbuf, input, sums, readpos, partsPerCall
      ensures Ready() && heard == old(heard) + old(inp[..])
    {
      Take(inp);
      if inbufpos >= p {
        NowFull();
        StartCycle(inp.Length);
      } else {
        NowReady();
      }
    }

    /** The invariant of a call whose products are done; `Poised` is folded as in `Ready`. */
    ghost predicate Worked()
      reads this, inbuf, input, sums, readpos, partsPerCall
    {
      && Shape() && (forall call: nat | call == curcall :: Poised(call))
      && Ledger(1) && Sounding(sumbuf, |blocks| - 1) && Sounding(prev[sumbuf], |blocks| - 2)
      && (nparts > 0 ==> curpart > 0) && curpart == DoneBefore(curcall + 1)
    }

    /** The share of a call before the first full block, and of one after it. */
    lemma FirstShareFits()
      requires Shape() && blocks == [] && InCall() && FirstDeal()
      ensures curcall < MAXPARTS
              && DoneBefore(curcall) + partsPerCall[curcall] == DoneBefore(curcall + 1) <= nparts
      ensures DoneBefore(curcall + 1) > 0 <==> nparts > 0
    {
      FirstDealtNext(nparts, firstCalls, curcall);
    }

    lemma LaterShareFits()
      requires Shape() && blocks != [] && InCall()
      ensures curcall < MAXPARTS
              && DoneBefore(curcall) + partsPerCall[curcall] == DoneBefore(curcall + 1) <= nparts
      ensures nparts > 0 ==> DoneBefore(curcall + 1) > 0
    {
      DealtAll(nparts, calls, curcall + 1);
      DealtPositive(nparts, calls, curcall + 1);
    }

    /** Unless a block is a whole partition, something leaks if there are partitions at all. */
    lemma LeakPositive()
      requires Static() && calls > 1
      ensures leak > 0 <==> nparts > 0
    {
      FirstDealtNext(nparts, firstCalls, calls - 2);
    }

    lemma ShareFits()
      requires Ready()
      ensures curcall < MAXPARTS && curpart + partsPerCall[curcall] == DoneBefore(curcall + 1) <= nparts
      ensures nparts > 0 ==> DoneBefore(curcall + 1) > 0
      ensures blocks == [] ==> (DoneBefore(curcall + 1) > 0 <==> leak > 0)
      ensures Transforms(input[..], Current())
    {
      assert Poised(curcall);
      if blocks == [] {
        FirstShareFits();
        LeakPositive();
      } else {
        LaterShareFits();
      }
    }

    /** This call's products and, in the first call of a cycle, the transform of the finished buffer. */
    method Work(tail: seq<real>)
      requires Ready() && |tail| == 2
      modifies sums, `curpart
      ensures Worked()
    {
      WorkShare();
      if curcall == 0 {
        FinishCurrent(tail);
      }
    }

    /** The products of this call; `Poised` is folded as in `Ready`. */
    method WorkShare()
      requires Ready()
      modifies sums, `curpart
      ensures Shape() && (forall call: nat | call == curcall :: Poised(call))
      ensures Sounding(prev[sumbuf], |blocks| - 2)
      ensures if curcall == 0 then Ledger(0) else Ledger(1) && Sounding(sumbuf, |blocks| - 1)
      ensures (nparts > 0 ==> curpart > 0) && curpart == DoneBefore(curcall + 1)
      ensures blocks == [] ==> (curpart > 0 <==> leak > 0)
    {
      ShareFits();
      ConvolveShare(if curcall == 0 then 0 else 1);
    }

    method MoveOn()
      requires Static() && sumbuf < nparts + 2
      modifies readpos
      ensures readpos[sumbuf] == old(readpos[sumbuf]) + n && readpos[prev[sumbuf]] == old(readpos[prev[sumbuf]]) + n
    {
      readpos[sumbuf] := readpos[sumbuf] + n;
      readpos[prev[sumbuf]] := readpos[prev[sumbuf]] + n;
    }

    /** Moves the read positions on and counts the call. */
    method EndCall()
      requires Worked()
      modifies `curcall, readpos
      ensures Valid()
    {
      assert Poised(curcall);
      Positions(curcall);
      MoveOn();
      curcall := curcall + 1;
      assert Consistent(curcall, 0);
    }

    /** `out` is the direct convolution of everything heard, from time `start` on, late by one partition less one
        block, and the echo. */
    ghost predicate Delivered(out: array<real>, start: nat)
      reads `heard, out
    {
      Convolved(out[..], start, heard, response, Leaking())
    }

    method Respond(out: array<real>, ghost start: nat)
      requires Worked() && out.Length == n && out !in {inbuf, input} && start + n == |heard|
      modifies `curcall, readpos, out
      ensures Valid() && Delivered(out, start)
    {
      assert Poised(curcall);
      Emit(out, start);
      EndCall();
    }

    /**
     One block of input in, one block of output out: the direct convolution of everything heard so
     far with the impulse response, late by one partition less one block, with the echo of what the
     input buffer held at first. `tail` is what the transform leaves in the padding of its buffer. `inp` and `out` may
     be the same array.
     */
    method Perform(inp: array<real>, out: array<real>, tail: seq<real>)
      requires Valid() && inp.Length == out.Length == n && |tail| == 2
      requires inp !in {inbuf, input} && out !in {inbuf, input}
      modifies this, inbuf, input, sums, readpos, partsPerCall, out
      ensures Valid() && heard == old(heard) + old(inp[..])
      ensures Delivered(out, |old(heard)|)
    {
      StartCall(inp);
      Work(tail);
      Respond(out, |old(heard)|);
    }
  }

  /** Two sums of products and what leaked into them, as samples of the output. */
  /** Sample `j` of all that is due in block `c`. */
  function BlockPart(l: Leak, b: seq<seq<real>>, parts: nat, c: int, j: int): real
    requires 0 <= j < 2 * l.p
  {
    Partial(l.p, b, l.h, parts, c, 0)[j] + At(Residue(l.p, l.g, l.h, l.k, c), j)
  }

  lemma BlockSum(l: Leak, b: seq<seq<real>>, x: seq<real>, rest: seq<real>, parts: nat, r: int, t: int, now: real,
      before: real)
    requires 0 < l.n <= l.p && Streamed(l.p, b, x, rest) && 0 <= r < l.p && b != [] && |l.h| <= parts * l.p
    requires t == (|b| - 1) * l.p + r + (l.p - l.n)
    requires now == BlockPart(l, b, parts, |b| - 1, r) && before == BlockPart(l, b, parts, |b| - 2, l.p + r)
    ensures Sample(now + before, x, l.h, l, t) == true
  {
    var c := |b| - 1;
    BlocksDirect(l.p, b, x, rest, l.h, parts, r, t - (l.p - l.n));
    EchoAt(l, t, c, r);
    SumOfParts(l, x, t, Partial(l.p, b, l.h, parts, c, 0)[r], Partial(l.p, b, l.h, parts, c - 1, 0)[l.p + r],
               At(Residue(l.p, l.g, l.h, l.k, c), r), At(Residue(l.p, l.g, l.h, l.k, c - 1), l.p + r));
  }

  lemma SumOfParts(l: Leak, x: seq<real>, t: int, now: real, before: real, echo: real, echo': real)
    requires 0 < l.p && Direct(x, l.h, t - (l.p - l.n)) == now + before && Echo(l, t) == echo + echo'
    ensures Sample((now + echo) + (before + echo'), x, l.h, l, t) == true
  {}

  lemma BlocksDirect(p: nat, b: seq<seq<real>>, x: seq<real>, rest: seq<real>, h: seq<real>, parts: nat, r: int, t: int)
    requires Streamed(p, b, x, rest) && 0 <= r < p && b != [] && |h| <= parts * p && t == (|b| - 1) * p + r
    ensures Partial(p, b, h, parts, |b| - 1, 0)[r] + Partial(p, b, h, parts, |b| - 2, 0)[p + r] == Direct(x, h, t)
  {
    var m := |b| * p;
    OverlapAddIsDirect(p, b, x[..m], x[m..], h, parts, |b| - 1, r, t);
    assert x[..m] + x[m..] == x;
  }

  /** `y` is the convolution of `x` with `h`, from time `start` on, late by one partition less one block, with the
      echo. */
  ghost predicate Convolved(y: seq<real>, start: int, x: seq<real>, h: seq<real>, l: Leak) {
    0 < l.p && forall i | 0 <= i < |y| :: Sample(y[i], x, h, l, start + i)
  }

  ghost predicate Sample(v: real, x: seq<real>, h: seq<real>, l: Leak, t: int)
    requires 0 < l.p
  {
    v == Direct(x, h, t - (l.p - l.n)) + Echo(l, t)
  }

  /** Convolution is causal: what has been heard so far decides it as the whole stream does. */
  lemma ConvolvedWhole(y: seq<real>, start: nat, end: nat, x: seq<real>, h: seq<real>, l: Leak)
    requires end <= |x| && start + |y| <= end && l.n <= l.p && Convolved(y, start, x[..end], h, l)
    ensures Convolved(y, start, x, h, l)
  {
    forall i | 0 <= i < |y| ensures Sample(y[i], x, h, l, start + i) {
      assert Sample(y[i], x[..end], h, l, start + i);
      DirectCongruent(x[..end], x[end..], h, |h|, start + i - (l.p - l.n));
      assert x[..end] + x[end..] == x;
    }
  }

  lemma ConvolvedAppend(y: seq<real>, z: seq<real>, x: seq<real>, h: seq<real>, l: Leak)
    requires Convolved(y, 0, x, h, l) && Convolved(z, |y|, x, h, l)
    ensures Convolved(y + z, 0, x, h, l)
  {
    forall i | 0 <= i < |y + z| ensures Sample((y + z)[i], x, h, l, 0 + i) {
      if i < |y| { assert Sample(y[i], x, h, l, 0 + i); } else { assert Sample(z[i - |y|], x, h, l, |y| + (i - |y|)); }
    }
  }

  /** The output loop undoes the scaling of the inverse transform. */
  lemma Unscaled(p: nat, row: seq<real>, row': seq<real>, w: seq<real>, w': seq<real>, r: int, r': int, scale: real)
    requires 0 < p && 0 <= r < 2 * p <= |row| && 0 <= r' < 2 * p <= |row'| && scale == 1.0 / (2 * p) as real
    requires |w| == |w'| == 2 * p && row[..2 * p] == Scaled((2 * p) as real, w)
             && row'[..2 * p] == Scaled((2 * p) as real, w')
    ensures Blend(row[r], row'[r'], scale) == w[r] + w'[r']
  {
    assert row[r] == row[..2 * p][r] && row'[r'] == row'[..2 * p][r'];
    Rescaled((2 * p) as real, w[r], w'[r'], scale);
  }

  lemma Rescaled(size: real, a: real, b: real, scale: real)
    requires size > 0.0 && scale == 1.0 / size
    ensures Blend(Times(size, a), Times(size, b), scale) == a + b
  {
    assert size * scale == 1.0;
    calc { Blend(Times(size, a), Times(size, b), scale); (size * scale) * (a + b); a + b; }
  }

  /** One call of a run over the stream `x`, with input and output sharing the array `signal`. */
  method PlayBlock(conv: PartConv, signal: array<real>, tail: seq<real>, x: seq<real>, at: nat)
    requires conv.Valid() && conv.n == signal.Length && |tail| == 2
    requires signal !in {conv.inbuf, conv.input}
    requires at + conv.n <= |x| && conv.heard == x[..at] && signal[..] == x[at..at + conv.n] && conv.n <= conv.p
    modifies conv, conv.inbuf, conv.input, conv.sums, conv.readpos, conv.partsPerCall, signal
    ensures conv.Valid() && conv.heard == x[..at + conv.n]
    ensures Convolved(signal[..], at, x, conv.response, conv.Leaking())
  {
    assert x[..at] + x[at..at + conv.n] == x[..at + conv.n];
    conv.Perform(signal, signal, tail);
    ConvolvedWhole(signal[..], at, at + conv.n, x, conv.response, conv.Leaking());
  }

  method CopyIn(signal: array<real>, x: seq<real>, at: nat)
    requires at + signal.Length <= |x|
    modifies signal
    ensures signal[..] == x[at..at + signal.Length]
  {
    for i := 0 to signal.Length
      invariant signal[..i] == x[at..at + i]
    {
      signal[i] := x[at + i];
    }
  }

  /** Extends the output `y` of a run by one block. */
  method PlayNext(conv: PartConv, signal: array<real>, tail: seq<real>, x: seq<real>, y: seq<real>)
      returns (z: seq<real>)
    requires conv.Valid() && conv.n == signal.Length && |tail| == 2
    requires signal !in {conv.inbuf, conv.input}
    requires |y| + conv.n <= |x| && conv.heard == x[..|y|] && conv.n <= conv.p
    requires Convolved(y, 0, x, conv.response, conv.Leaking())
    modifies conv, conv.inbuf, conv.input, conv.sums, conv.readpos, conv.partsPerCall, signal
    ensures conv.Valid() && |z| == |y| + conv.n && conv.heard == x[..|z|]
    ensures Convolved(z, 0, x, conv.response, conv.Leaking())
  {
    CopyIn(signal, x, |y|);
    PlayBlock(conv, signal, tail, x, |y|);
    ConvolvedAppend(y, signal[..], x, conv.response, conv.Leaking());
    z := y + signal[..];
  }

  /** All calls of a run. */
  method PlayAll(conv: PartConv, n: nat, tail: seq<real>, count: nat, x: seq<real>) returns (y: seq<real>)
    requires conv.Valid() && conv.heard == [] && 0 < n == conv.n <= conv.p && |x| == count * n && |tail| == 2
    modifies conv, conv.inbuf, conv.input, conv.sums, conv.readpos, conv.partsPerCall
    ensures |y| == |x| && Convolved(y, 0, x, conv.response, conv.Leaking())
  {
    var signal := new real[conv.n];
    y := [];
    for k := 0 to count
      invariant |y| == k * n <= |x|
      invariant conv.Valid() && conv.heard == x[..|y|]
      invariant Convolved(y, 0, x, conv.response, conv.Leaking())
    {
      CallArithmetic(n, |x|, count, k);
      y := PlayNext(conv, signal, tail, x, y);
    }
  }

  /** How many partitions are multiplied with what the input buffer held at first. */
  function LeakCount(p: nat, n: nat, size: nat, dealtFor: nat): (k: nat)
    requires 0 < n && 0 < p && 0 < dealtFor <= p && p % n == 0
  {
    DivPositive(p, dealtFor);
    DivExact(p, n);
    FirstDealt(PartCount(p, size), p / dealtFor, p / n - 1)
  }

  lemma LeakFits(p: nat, n: nat, size: nat, dealtFor: nat)
    requires 0 < n && 0 < p && 0 < dealtFor <= p && p % n == 0
    ensures LeakCount(p, n, size, dealtFor) <= PartCount(p, size)
    ensures n == p ==> LeakCount(p, n, size, dealtFor) == 0
    ensures n < p ==> (LeakCount(p, n, size, dealtFor) > 0 <==> PartCount(p, size) > 0)
  {
    DivPositive(p, dealtFor);
    DivExact(p, n);
    if n == p {
      DivModUnique(p, n, 1, 0);
    } else {
      FirstDealtNext(PartCount(p, size), p / dealtFor, p / n - 2);
    }
  }

  /**
   Whole runs: over any number of calls, sample `t` of the output is the direct convolution of the
   whole input at `t - (p - n)`, silence before that, and the echo of the signal `stale` whose spectrum
   the input buffer held at first.
   */
  method Render(p: nat, n: nat, tw: int -> Complex, table: seq<real>, dealtFor: nat, buffer: seq<real>,
      tail: seq<real>, count: nat, x: seq<real>)
    returns (y: seq<real>)
    requires 0 < p && Twiddles(tw, 2 * p)
    requires 0 < n && p % n == 0 && p / n <= 256
    requires 0 < dealtFor <= p && p / dealtFor <= 256
    requires |buffer| == 2 * p + 2 && |tail| == 2
    requires |x| == count * n
    ensures |y| == |x|
    ensures var h := if |table| <= 256 * p then table else table[..256 * p];
            forall t | 0 <= t < |x| ::
              y[t] == (if t < p - n then 0.0 else Direct(x, h, t - (p - n)))
                      + Echo(Leak(p, n, Recovered(tw, p, buffer), h, LeakCount(p, n, |table|, dealtFor)), t)
    ensures n == p && |table| <= 256 * p ==> forall t | 0 <= t < |x| :: y[t] == Direct(x, table, t)
  {
    ghost var g, h, k := Recovered(tw, p, buffer), Cut(p, table), LeakCount(p, n, |table|, dealtFor);
    CutIs(p, table);
    y := PlayNew(p, n, tw, table, dealtFor, buffer, tail, count, x);
    ConvolvedFromStart(y, x, p, n, g, h, k);
    if n == p { WholeBlocks(y, x, p, g, h, k) by { LeakFits(p, n, |table|, dealtFor); } }
  }

  /** Where a block is a whole partition, the direct convolution comes out at once and alone. */
  lemma WholeBlocks(y: seq<real>, x: seq<real>, p: nat, g: seq<real>, h: seq<real>, k: nat)
    requires 0 < p && k == 0
    requires forall t | 0 <= t < |y| ::
               y[t] == (if t < p - p then 0.0 else Direct(x, h, t - (p - p))) + Echo(Leak(p, p, g, h, k), t)
    ensures forall t | 0 <= t < |y| :: y[t] == Direct(x, h, t)
  {
    forall t | 0 <= t < |y| ensures y[t] == Direct(x, h, t) { NoEcho(Leak(p, p, g, h, k), t); }
  }

  /** Plays `x` into a new object. */
  method PlayNew(p: nat, n: nat, tw: int -> Complex, table: seq<real>, dealtFor: nat, buffer: seq<real>,
      tail: seq<real>, count: nat, x: seq<real>)
    returns (y: seq<real>)
    requires 0 < p && Twiddles(tw, 2 * p)
    requires 0 < n && p % n == 0 && p / n <= MAXPARTS
    requires 0 < dealtFor <= p && p / dealtFor <= MAXPARTS
    requires |buffer| == 2 * p + 2 && |tail| == 2
    requires |x| == count * n
    ensures |y| == |x|
    ensures n <= p
    ensures Convolved(y, 0, x, Cut(p, table),
            Leak(p, n, Recovered(tw, p, buffer), Cut(p, table), LeakCount(p, n, |table|, dealtFor)))
  {
    assert n <= p by { DivExact(p, n); MulAtLeast(p / n, n); }
    var conv := new PartConv(p, n, tw, table, dealtFor, buffer);
    y := PlayAll(conv, n, tail, count, x);
  }

  lemma ConvolvedFromStart(y: seq<real>, x: seq<real>, p: nat, n: nat, g: seq<real>, h: seq<real>, k: nat)
    requires Convolved(y, 0, x, h, Leak(p, n, g, h, k))
    ensures forall t | 0 <= t < |y| ::
              y[t] == (if t < p - n then 0.0 else Direct(x, h, t - (p - n))) + Echo(Leak(p, n, g, h, k), t)
  {
    forall t | 0 <= t < |y|
      ensures y[t] == (if t < p - n then 0.0 else Direct(x, h, t - (p - n))) + Echo(Leak(p, n, g, h, k), t)
    {
      assert Sample(y[t], x, h, Leak(p, n, g, h, k), 0 + t);
      if t < p - n { DirectBeforeStart(x, h, t - (p - n)); }
    }
  }

  // When the input spectrum is heard.

  /** There is no echo of a cleared buffer, nor of any if the first call completes a block. */
  lemma NoEcho(l: Leak, t: nat)
    requires 0 < l.p && (l.k == 0 || forall j :: At(l.g, j) == 0.0)
    ensures Echo(l, t) == 0.0
  {
    forall c ensures Residue(l.p, l.g, l.h, l.k, c) == Zeros(2 * l.p) {
      if 0 <= c + 1 < l.k {
        var y := Circular(2 * l.p, l.g, Piece(l.p, l.h, c + 1));
        forall j | 0 <= j < 2 * l.p ensures y[j] == 0.0 {
          SumZero(0, 2 * l.p, CircularTerm(2 * l.p, l.g, Piece(l.p, l.h, c + 1), j));
        }
      }
    }
  }

  /** Until the first block is complete, the echo is the circular convolution of the stale signal with partition 0. */
  lemma FirstEcho(l: Leak, t: nat)
    requires 0 < l.p && 0 < l.k && t < l.p - l.n
    ensures Echo(l, t) == Circular(2 * l.p, l.g, Piece(l.p, l.h, 0))[t]
  {}

  /** With this impulse response nothing is heard of the signal `g`. */
  ghost predicate Echoless(p: nat, n: nat, dealtFor: nat, g: seq<real>, table: seq<real>)
    requires 0 < n && 0 < p && 0 < dealtFor <= p && p % n == 0
  {
    forall t: nat :: Echo(Leak(p, n, g, Cut(p, table), LeakCount(p, n, |table|, dealtFor)), t) == 0.0
  }

  /** A single impulse after `d` samples. */
  function Impulse(d: nat): (h: seq<real>) { Zeros(d) + [1.0] }

  lemma ImpulseResponse(p: nat, g: seq<real>, d: nat, t: int)
    requires d < p && 0 <= t < 2 * p
    ensures Circular(2 * p, g, Piece(p, Impulse(d), 0))[t] == At(g, Around(2 * p, t, d))
  {
    var f := CircularTerm(2 * p, g, Piece(p, Impulse(d), 0), t);
    forall i | 0 <= i < 2 * p && i != d ensures f(i) == 0.0 { ImpulseTap(p, d, i); }
    ImpulseTap(p, d, d);
    SumSingle(0, 2 * p, d, f);
  }

  lemma ImpulseTap(p: nat, d: nat, i: int)
    requires d < p && 0 <= i
    ensures At(Piece(p, Impulse(d), 0), i) == if i == d then 1.0 else 0.0
  {
    var h := Impulse(d);
    if i < p { assert Piece(p, h, 0)[i] == At(h, i) by { assert 0 * p + i == i; } }
    if i < d { assert h[i] == Zeros(d)[i]; }
  }

  lemma ImpulseLeaks(p: nat, n: nat, dealtFor: nat, d: nat)
    requires 0 < n < p && 0 < dealtFor <= p && p % n == 0 && d < p
    ensures Cut(p, Impulse(d)) == Impulse(d) && LeakCount(p, n, |Impulse(d)|, dealtFor) == 1
  {
    var size := |Impulse(d)|;
    assert PartCount(p, size) == 1 by {
      if size < p { ModSmall(size, p); } else { DivModUnique(size, p, 1, 0); }
    }
    LeakFits(p, n, size, dealtFor);
  }

  /** What is heard of `g` through an impulse: first its start, then the rest of it. */
  lemma ImpulseEcho(p: nat, n: nat, g: seq<real>, d: nat, r: nat)
    requires 0 < n < p && d < p && r < p
    ensures Echo(Leak(p, n, g, Impulse(d), 1), 0) == At(g, Around(2 * p, 0, d))
    ensures Echo(Leak(p, n, g, Impulse(d), 1), p - n + r) == At(g, p + r - d)
  {
    var l := Leak(p, n, g, Impulse(d), 1);
    FirstEcho(l, 0);
    ImpulseResponse(p, g, d, 0);
    ImpulseResponse(p, g, d, p + r);
    EchoAt(l, p - n + r, 0, r);
  }

  /** Every sample of the first spectrum is heard through some impulse. */
  lemma HeardThroughImpulse(p: nat, n: nat, dealtFor: nat, g: seq<real>, j: int)
    requires 0 < n < p && 0 < dealtFor <= p && p % n == 0 && 0 <= j < 2 * p
    requires Echoless(p, n, dealtFor, g, Impulse(0)) && Echoless(p, n, dealtFor, g, Impulse(p - 1))
    ensures At(g, j) == 0.0
  {
    if j < p {
      ImpulseSilence(p, n, dealtFor, g, 0, 0);
      if j > 0 { ImpulseSilence(p, n, dealtFor, g, p - 1, j - 1); }
    } else {
      ImpulseSilence(p, n, dealtFor, g, 0, j - p);
    }
  }

  lemma ImpulseSilence(p: nat, n: nat, dealtFor: nat, g: seq<real>, d: nat, r: nat)
    requires 0 < n < p && 0 < dealtFor <= p && p % n == 0 && d < p && r < p
    requires Echoless(p, n, dealtFor, g, Impulse(d))
    ensures At(g, Around(2 * p, 0, d)) == 0.0 == At(g, p + r - d)
  {
    ImpulseLeaks(p, n, dealtFor, d);
    ImpulseEcho(p, n, g, d, r);
    var l := Leak(p, n, g, Impulse(d), 1);
    assert l == Leak(p, n, g, Cut(p, Impulse(d)), LeakCount(p, n, |Impulse(d)|, dealtFor));
    assert Echo(l, 0) == 0.0 && Echo(l, p - n + r) == 0.0;
  }

  /**
   Whatever the impulse response, nothing is heard of what the input buffer held at first: exactly when
   a block is a whole partition, or the buffer is zero but for the two floats that no transform looks at.
   */
  lemma EcholessIff(p: nat, n: nat, dealtFor: nat, tw: int -> Complex, buffer: seq<real>)
    requires 0 < n <= p && 0 < dealtFor <= p && p % n == 0 && Twiddles(tw, 2 * p) && |buffer| == 2 * p + 2
    ensures (forall table :: Echoless(p, n, dealtFor, Recovered(tw, p, buffer), table))
       <==> n == p || forall i | 0 <= i < 2 * p + 2 :: Cleaned(p, buffer)[i] == 0.0
  {
    var g := Recovered(tw, p, buffer);
    RecoveredSilence(tw, p, buffer);
    if n == p || forall j | 0 <= j < 2 * p :: At(g, j) == 0.0 {
      forall table ensures Echoless(p, n, dealtFor, g, table) { SilentTable(p, n, dealtFor, g, table); }
    } else if forall table :: Echoless(p, n, dealtFor, g, table) {
      forall j | 0 <= j < 2 * p ensures At(g, j) == 0.0 { HeardThroughImpulse(p, n, dealtFor, g, j); }
    }
  }

  lemma SilentTable(p: nat, n: nat, dealtFor: nat, g: seq<real>, table: seq<real>)
    requires 0 < n <= p && 0 < dealtFor <= p && p % n == 0
    requires n == p || forall j :: At(g, j) == 0.0
    ensures Echoless(p, n, dealtFor, g, table)
  {
    LeakFits(p, n, |table|, dealtFor);
    forall t: nat ensures Echo(Leak(p, n, g, Cut(p, table), LeakCount(p, n, |table|, dealtFor)), t) == 0.0 {
      NoEcho(Leak(p, n, g, Cut(p, table), LeakCount(p, n, |table|, dealtFor)), t);
    }
  }

  /** Partitions of two samples, blocks of one: a stale impulse is heard at once, before any input can be. */
  lemma StaleImpulseHeard()
    ensures LeakCount(2, 1, 1, 1) == 1
    ensures Echo(Leak(2, 1, [1.0, 0.0, 0.0, 0.0], [1.0], 1), 0) == 1.0
  {
    ImpulseLeaks(2, 1, 1, 0);
    assert Impulse(0) == [1.0];
    ImpulseEcho(2, 1, [1.0, 0.0, 0.0, 0.0], 0, 0);
  }

  /** Positions of successive blocks in the input buffer. */
  lemma CallArithmetic(n: nat, p: nat, calls: nat, j: nat)
    requires p == calls * n && 0 < n
    ensures j < calls ==> j * n + n <= p
    ensures j + 1 < calls <==> j * n + n < p
    ensures j >= 1 ==> (j - 1) * n + n == j * n
    ensures (j + 1) * n == j * n + n
    ensures j < calls <==> j * n < p
  {
    if j < calls { MulMonotone(j + 1, calls, n); }
    if j + 1 < calls { MulMonotone(j + 2, calls, n); } else { MulMonotone(calls, j + 1, n); }
    if j >= calls { MulMonotone(calls, j, n); }
  }

  function Blend(a: real, b: real, scale: real): real { (a + b) * scale }

  /** One stretch of each of two buffers, added and normalised. */
  function Mixed(u: seq<real>, i: nat, v: seq<real>, i': nat, n: nat, scale: real): (m: seq<real>)
    requires i + n <= |u| && i' + n <= |v|
    ensures |m| == n
  {
    seq(n, j requires 0 <= j < n => Blend(u[i + j], v[i' + j], scale))
  }

  /** The output loop. */
  method AddBuffers(out: array<real>, sums: array<seq<real>>, s: nat, i: nat, s': nat, i': nat, scale: real)
    requires s < sums.Length && s' < sums.Length && i + out.Length <= |sums[s]| && i' + out.Length <= |sums[s']|
    modifies out
    ensures out[..] == Mixed(sums[s], i, sums[s'], i', out.Length, scale)
  {
    ghost var mixed := Mixed(sums[s], i, sums[s'], i', out.Length, scale);
    for k := 0 to out.Length
      invariant forall j | 0 <= j < k :: out[j] == mixed[j]
    {
      out[k] := Blend(sums[s][i + k], sums[s'][i' + k], scale);
    }
  }
}
