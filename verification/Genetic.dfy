/** The genetic algorithm: target genes packed from numbers, fitness, and the roulette wheel. */
module Genetic {
  import opened Arithmetic
  import opened Positional

  const MAX_ARRAY_SIZE := 256

  // Bits.

  /** `x >> i`. */
  function ShiftRight(x: int, i: nat): (r: int)
    decreases i
  {
    if i == 0 then x else ShiftRight(x / 2, i - 1)
  }

  /** `(x >> i) & 1`, also for negative numbers in two's complement. */
  function Bit(x: int, i: nat): (b: int)
    ensures 0 <= b <= 1
  {
    ShiftRight(x, i) % 2
  }

  function BitsOf(x: int, length: nat): (c: seq<int>)
    ensures |c| == length
  {
    seq(length, i requires 0 <= i < length => Bit(x, i))
  }

  /** The number whose digit `i` in base 2 is `c[i]`. */
  function Value(c: seq<int>): (n: int) {
    if c == [] then 0 else c[0] + 2 * Value(c[1..])
  }

  lemma HalfRemainder(x: int, p: int)
    requires 0 < p
    ensures x % (2 * p) == x % 2 + 2 * ((x / 2) % p)
  {
    var h := x / 2;
    var q, r := h / p, h % p;
    assert h == q * p + r;
    assert x == 2 * h + x % 2;
    assert x == q * (2 * p) + (2 * r + x % 2) by { assert q * (2 * p) == 2 * (q * p); }
    DivModUnique(x, 2 * p, q, 2 * r + x % 2);
  }

  /** Unpacking a number and packing it again keeps it modulo a power of two, for every integer. */
  lemma {:induction false} PackUnpack(x: int, length: nat)
    ensures Power(2, length) > 0 && Value(BitsOf(x, length)) == x % Power(2, length)
    decreases length
  {
    PowerPositive(2, length);
    if length > 0 {
      PackUnpack(x / 2, length - 1);
      assert BitsOf(x, length)[1..] == BitsOf(x / 2, length - 1);
      HalfRemainder(x, Power(2, length - 1));
    }
  }

  lemma {:induction false} ShiftDivides(x: int, i: nat)
    ensures Power(2, i) > 0 && ShiftRight(x, i) == x / Power(2, i)
    decreases i
  {
    PowerPositive(2, i);
    if i > 0 {
      ShiftDivides(x / 2, i - 1);
      HalfQuotient(x, Power(2, i - 1));
    }
  }

  lemma HalfQuotient(x: int, p: int)
    requires 0 < p
    ensures (x / 2) / p == x / (2 * p)
  {
    var h := x / 2;
    var q, r := h / p, h % p;
    assert h == q * p + r && x == 2 * h + x % 2;
    assert x == q * (2 * p) + (2 * r + x % 2) by { assert q * (2 * p) == 2 * (q * p); }
    DivModUnique(x, 2 * p, q, 2 * r + x % 2);
  }

  /** Bit `i` is digit `i` in base 2. */
  lemma BitIs(x: int, i: nat)
    ensures Power(2, i) > 0 && Bit(x, i) == (x / Power(2, i)) % 2
  {
    ShiftDivides(x, i);
  }

  /** Packing bits and unpacking the number gives the bits back. */
  lemma {:induction false} UnpackPack(c: seq<int>)
    requires forall i | 0 <= i < |c| :: 0 <= c[i] <= 1
    ensures BitsOf(Value(c), |c|) == c
  {
    if c != [] {
      var x, rest := Value(c), c[1..];
      UnpackPack(rest);
      assert x / 2 == Value(rest) && x % 2 == c[0];
      assert BitsOf(x, |c|)[0] == c[0];
      forall i | 1 <= i < |c| ensures BitsOf(x, |c|)[i] == c[i] {
        assert BitsOf(x / 2, |rest|)[i - 1] == Bit(x / 2, i - 1) == Bit(x, i);
        assert rest[i - 1] == c[i];
      }
    }
  }

  /** The chunks lie side by side: gene `g` is in chunk `g / size`. */
  lemma ChunksTile(genes: seq<int>, size: nat, g: nat)
    requires 1 <= size && g < (|genes| / size) * size
    ensures var c := Chunk(genes, size, g / size); |c| == size && c[g % size] == genes[g]
  {
    var i := g / size;
    assert g == i * size + g % size;
    if |genes| / size <= i { MulMonotone(|genes| / size, i, size); }
    ChunkInside(|genes|, size, i, i * size);
  }

  /** The genes of chunk `i`. */
  function Chunk(genes: seq<int>, size: nat, i: nat): (c: seq<int>) {
    if i * size + size <= |genes| then genes[i * size..i * size + size] else []
  }

  class Target {
    const genes: array<int>
    const length: nat
    const chunksize: nat

    /** A target with the given genes, which the program draws at random. */
    constructor (random: seq<int>, chunksize: nat)
      requires 0 < |random| <= MAX_ARRAY_SIZE && 1 <= chunksize <= 16
      ensures Valid() && fresh(genes) && genes[..|random|] == random && length == |random|
              && this.chunksize == chunksize
    {
      genes := new int[MAX_ARRAY_SIZE](i requires 0 <= i < MAX_ARRAY_SIZE => if i < |random| then random[i] else 0);
      length := |random|;
      this.chunksize := chunksize;
    }

    predicate Valid() { 0 < length <= genes.Length == MAX_ARRAY_SIZE && 1 <= chunksize <= 16 }

    /** `fast_d2bl`: writes the lowest bits of `x` from gene `at` on. */
    method Unpack(x: int, at: nat)
      requires Valid() && at + chunksize <= genes.Length
      modifies genes
      ensures genes[..] == old(genes[..at]) + BitsOf(x, chunksize) + old(genes[at + chunksize..])
    {
      var i := 0;
      while i < chunksize
        invariant 0 <= i <= chunksize
        invariant forall q | 0 <= q < i :: genes[at + q] == Bit(x, q)
        invariant forall q | 0 <= q < genes.Length && (q < at || at + i <= q) :: genes[q] == old(genes[q])
      {
        genes[at + i] := ShiftRight(x, i) % 2;
        i := i + 1;
      }
      assert genes[..at] == old(genes[..at]) && genes[at + chunksize..] == old(genes[at + chunksize..]);
      assert genes[at..at + chunksize] == BitsOf(x, chunksize);
    }

    /** `fast_b2short`: the number packed in the genes from `at` on; lengths out of range count as 8. */
    method Pack(at: nat, length: nat) returns (n: int)
      requires at + (if 0 < length <= 16 then length else 8) <= genes.Length
      ensures n == Value(genes[at..at + if 0 < length <= 16 then length else 8])
    {
      var l := if 0 < length <= 16 then length else 8;
      var i := l;
      n := 0;
      while i > 0
        invariant 0 <= i <= l && n == Value(genes[at + i..at + l])
      {
        i := i - 1;
        assert genes[at + i..at + l][1..] == genes[at + i + 1..at + l];
        n := n * 2;
        n := n + genes[at + i];
      }
    }

    method PrintChunk(i: nat) returns (n: int)
      requires Valid() && i < length / chunksize
      ensures n == Value(Chunk(genes[..], chunksize, i))
    {
      var at := i * chunksize;
      ChunkInside(length, chunksize, i, at);
      n := Pack(at, chunksize);
      assert genes[at..at + chunksize] == genes[..][at..at + chunksize];
    }

    /** The numbers packed in the chunks. */
    method Print() returns (out: seq<int>)
      requires Valid()
      ensures |out| == length / chunksize
              && forall i | 0 <= i < |out| :: out[i] == Value(Chunk(genes[..], chunksize, i))
    {
      var count := length / chunksize;
      out := [];
      while |out| < count
        invariant |out| <= count && forall i | 0 <= i < |out| :: out[i] == Value(Chunk(genes[..], chunksize, i))
      {
        var n := PrintChunk(|out|);
        out := out + [n];
      }
    }

    /** Writes number `x` to chunk `i`. */
    method SetChunk(i: nat, x: int)
      requires Valid() && i < length / chunksize
      modifies genes
      ensures forall j | 0 <= j < length / chunksize ::
                Chunk(genes[..], chunksize, j)
                == if j == i then BitsOf(x, chunksize) else old(Chunk(genes[..], chunksize, j))
    {
      ghost var was := genes[..];
      var at := i * chunksize;
      ChunkInside(length, chunksize, i, at);
      Unpack(x, at);
      forall j | 0 <= j < length / chunksize
        ensures Chunk(genes[..], chunksize, j) == if j == i then BitsOf(x, chunksize) else Chunk(was, chunksize, j)
      {
        ChunkInside(length, chunksize, j, j * chunksize);
        ChunkKept(was, BitsOf(x, chunksize), genes[..], chunksize, i, j, at, j * chunksize);
      }
    }

    /** Writes the numbers to the chunks, as many as there are of both. */
    method SetTarget(args: seq<int>)
      requires Valid()
      modifies genes
      ensures forall i | 0 <= i < length / chunksize ::
                Chunk(genes[..], chunksize, i)
                == if i < |args| then BitsOf(args[i], chunksize) else old(Chunk(genes[..], chunksize, i))
    {
      var i := 0;
      while i < length / chunksize
        invariant 0 <= i <= length / chunksize
        invariant forall j | 0 <= j < length / chunksize ::
                    Chunk(genes[..], chunksize, j)
                    == if j < i && j < |args| then BitsOf(args[j], chunksize) else old(Chunk(genes[..], chunksize, j))
      {
        if i >= |args| {
          break;
        }
        SetChunk(i, args[i]);
        i := i + 1;
      }
    }
  }

  lemma ChunkInside(length: nat, size: nat, i: nat, at: int)
    requires 1 <= size && i < length / size && at == i * size
    ensures 0 <= at && at + size <= length
  {
    assert length == (length / size) * size + length % size;
    MulMonotone(i + 1, length / size, size);
    assert (i + 1) * size == i * size + size;
  }

  lemma ChunksApart(size: nat, i: nat, j: nat)
    requires i < j
    ensures i * size + size <= j * size
  {
    MulMonotone(i + 1, j, size);
    assert (i + 1) * size == i * size + size;
  }

  /** Writing chunk `i` leaves the others alone. */
  lemma ChunkKept(was: seq<int>, bits: seq<int>, now: seq<int>, size: nat, i: nat, j: nat, at: nat, at': nat)
    requires at == i * size && at' == j * size && |bits| == size && at + size <= |was| && at' + size <= |was|
    requires now == was[..at] + bits + was[at + size..]
    ensures Chunk(now, size, j) == if j == i then bits else Chunk(was, size, j)
  {
    if j < i { ChunksApart(size, j, i); } else if j > i { ChunksApart(size, i, j); }
    Spliced(was, bits, now, at, at', i == j);
  }

  lemma Spliced(was: seq<int>, bits: seq<int>, now: seq<int>, at: nat, at': nat, same: bool)
    requires at + |bits| <= |was| && at' + |bits| <= |was| && now == was[..at] + bits + was[at + |bits|..]
    requires if same then at == at' else at' + |bits| <= at || at + |bits| <= at'
    ensures now[at'..at' + |bits|] == if same then bits else was[at'..at' + |bits|]
  {}

  /** Setting a target and printing it: each number modulo `2^chunksize`, the chunks without a number as they were. */
  method SetAndPrint(random: seq<int>, chunksize: nat, args: seq<int>) returns (before: seq<int>, out: seq<int>)
    requires 0 < |random| <= 256 && 1 <= chunksize <= 16
    ensures |before| == |out| == |random| / chunksize && Power(2, chunksize) > 0
    ensures forall i | 0 <= i < |out| :: out[i] == if i < |args| then args[i] % Power(2, chunksize) else before[i]
  {
    var x := new Target(random, chunksize);
    before := x.Print();
    x.SetTarget(args);
    out := x.Print();
    PowerPositive(2, chunksize);
    forall i | 0 <= i < |out| ensures out[i] == if i < |args| then args[i] % Power(2, chunksize) else before[i] {
      if i < |args| { PackUnpack(args[i], chunksize); }
    }
  }
}
