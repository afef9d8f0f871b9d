/** Fitness of a population, truncation below the mean, and the scan of the roulette wheel. */
module Roulette {
  import opened Summation

  function Matches(target: seq<int>, genes: seq<int>, n: nat): (m: nat)
    requires n <= |target| == |genes|
    ensures m <= n
  {
    if n == 0 then 0 else Matches(target, genes, n - 1) + if target[n - 1] == genes[n - 1] then 1 else 0
  }

  /** The square of the share of matching genes. */
  function Fitness(matches: nat, length: nat): (f: real)
    requires length > 0
    ensures f >= 0.0
  {
    var share := matches as real / length as real;
    SquareNonnegative(share);
    share * share
  }

  lemma SquareNonnegative(x: real)
    ensures x * x >= 0.0
  {}

  /** The places where an individual matches the target. */
  function Matching(target: seq<int>, genes: seq<int>, n: nat): (c: set<nat>)
    requires n <= |target| == |genes|
  {
    set i: nat | i < n && target[i] == genes[i]
  }

  lemma {:induction false} MatchesCount(target: seq<int>, genes: seq<int>, n: nat)
    requires n <= |target| == |genes|
    ensures Matches(target, genes, n) == |Matching(target, genes, n)|
  {
    if n > 0 {
      MatchesCount(target, genes, n - 1);
      var c := Matching(target, genes, n - 1);
      assert Matching(target, genes, n) == if target[n - 1] == genes[n - 1] then c + {n - 1} else c;
    } else {
      assert Matching(target, genes, 0) == {};
    }
  }

  /** Fitness is the square of the share of matching genes, and grows with their number. */
  lemma FitnessIs(m: nat, m': nat, length: nat)
    requires length > 0
    ensures Times(Fitness(m, length), Times(length as real, length as real)) == Times(m as real, m as real)
    ensures m < m' ==> Fitness(m, length) < Fitness(m', length)
  {
    SquareTimes(m as real, length as real);
    if m < m' { SquaresGrow(m as real, m' as real, length as real); }
  }

  lemma SquareTimes(m: real, l: real)
    requires l > 0.0
    ensures Times((m / l) * (m / l), Times(l, l)) == Times(m, m)
  {
    assert (m / l) * l == m;
    assert (m / l) * (m / l) * (l * l) == ((m / l) * l) * ((m / l) * l);
  }

  lemma SquaresGrow(m: real, m': real, l: real)
    requires 0.0 <= m < m' && l > 0.0
    ensures (m / l) * (m / l) < (m' / l) * (m' / l)
  {
    var q, q' := m / l, m' / l;
    assert q * l == m && q' * l == m';
    assert 0.0 <= q < q' by { Grows(q, q', l); }
    assert q * q <= q * q' < q' * q';
  }

  lemma Grows(q: real, q': real, l: real)
    requires 0.0 <= q * l < q' * l && l > 0.0
    ensures 0.0 <= q < q'
  {}

  /** The fittest individual matches the target in the most places, and none before it in as many. */
  lemma LargestMatches(target: seq<int>, genes: seq<seq<int>>, h: nat)
    requires SameLength(target, genes) && Largest(Raw(target, genes), |genes|, h)
    ensures BestMatch(target, genes, h)
  {
    var n := |target|;
    forall k | 0 <= k < |genes|
      ensures |Matching(target, genes[k], n)| <= |Matching(target, genes[h], n)|
      ensures k < h ==> |Matching(target, genes[k], n)| < |Matching(target, genes[h], n)|
    {
      MatchesCount(target, genes[k], n);
      MatchesCount(target, genes[h], n);
      var raw := Raw(target, genes);
      assert raw[k] == Fitness(Matches(target, genes[k], n), n) && raw[h] == Fitness(Matches(target, genes[h], n), n);
      FitnessIs(Matches(target, genes[h], n), Matches(target, genes[k], n), n);
    }
  }

  ghost predicate BestMatch(target: seq<int>, genes: seq<seq<int>>, h: nat)
    requires SameLength(target, genes) && h < |genes|
  {
    forall k | 0 <= k < |genes| ::
      && |Matching(target, genes[k], |target|)| <= |Matching(target, genes[h], |target|)|
      && (k < h ==> |Matching(target, genes[k], |target|)| < |Matching(target, genes[h], |target|)|)
  }

  /** Values below the mean become zero. */
  function Truncated(f: seq<real>): (g: seq<real>)
    ensures |g| == |f|
  {
    seq(|f|, k requires 0 <= k < |f| => if f[k] < Total(f, |f|) / |f| as real then 0.0 else f[k])
  }

  ghost predicate Largest(f: seq<real>, n: nat, h: nat) {
    h < n <= |f| && (forall k | 0 <= k < n :: f[k] <= f[h]) && forall k | 0 <= k < h :: f[k] < f[h]
  }

  lemma {:induction false} TotalAtMost(f: seq<real>, n: nat, top: real)
    requires n <= |f| && forall k | 0 <= k < n :: f[k] <= top
    ensures Total(f, n) <= n as real * top
  {
    if n > 0 {
      TotalAtMost(f, n - 1, top);
      Successor(n - 1, top);
    }
  }

  lemma Successor(n: nat, x: real)
    ensures (n + 1) as real * x == n as real * x + x
  {}

  lemma MeanAtMost(total: real, n: nat, top: real)
    requires n > 0 && total <= n as real * top
    ensures total / n as real <= top
  {}

  /** The largest value survives truncation and stays the largest, at the same place. */
  lemma LargestKept(f: seq<real>, h: nat)
    requires Largest(f, |f|, h) && forall k | 0 <= k < |f| :: f[k] >= 0.0
    ensures Truncated(f)[h] == f[h] && Largest(Truncated(f), |f|, h)
  {
    TotalAtMost(f, |f|, f[h]);
    MeanAtMost(Total(f, |f|), |f|, f[h]);
    TruncatedBelow(f, h);
  }

  lemma TruncatedBelow(f: seq<real>, h: nat)
    requires Largest(f, |f|, h) && (forall k | 0 <= k < |f| :: f[k] >= 0.0) && Truncated(f)[h] == f[h]
    ensures Largest(Truncated(f), |f|, h)
  {}

  ghost predicate SameLength(target: seq<int>, genes: seq<seq<int>>) {
    0 < |genes| && 0 < |target| && forall k | 0 <= k < |genes| :: |genes[k]| == |target|
  }

  /** The fitness of every individual. */
  ghost function Raw(target: seq<int>, genes: seq<seq<int>>): (f: seq<real>)
    requires SameLength(target, genes)
    ensures |f| == |genes| && forall k | 0 <= k < |f| :: f[k] >= 0.0
  {
    seq(|genes|, k requires 0 <= k < |genes| => Fitness(Matches(target, genes[k], |target|), |target|))
  }

  class Population {
    const target: seq<int>
    const genes: seq<seq<int>>
    const fitness: array<real>
    var cumulativeprobability: real

    ghost predicate Valid() { SameLength(target, genes) && |genes| == fitness.Length }

    constructor (target: seq<int>, genes: seq<seq<int>>)
      requires SameLength(target, genes)
      ensures Valid() && fresh(fitness) && this.target == target && this.genes == genes
    {
      this.target, this.genes := target, genes;
      fitness := new real[|genes|];
      cumulativeprobability := 0.0;
    }

    method CountMatches(k: nat) returns (fit: nat)
      requires Valid() && k < |genes|
      ensures fit == Matches(target, genes[k], |target|)
    {
      fit := 0;
      var i := 0;
      while i < |target|
        invariant 0 <= i <= |target| && fit == Matches(target, genes[k], i)
      {
        if target[i] == genes[k][i] {
          fit := fit + 1;
        }
        i := i + 1;
      }
    }

    /** The first pass: every fitness, the sum and the place of the largest. */
    method Measure() returns (highest: nat)
      requires Valid()
      modifies fitness, this
      ensures fitness[..] == Raw(target, genes) && cumulativeprobability == Total(Raw(target, genes), |genes|)
              && Largest(Raw(target, genes), |genes|, highest)
    {
      ghost var raw := Raw(target, genes);
      highest := 0;
      var highestfitness := 0.0;
      cumulativeprobability := 0.0;
      var k := 0;
      while k < |genes|
        invariant 0 <= k <= |genes| && cumulativeprobability == Total(raw, k)
        invariant forall j | 0 <= j < k :: fitness[j] == raw[j] <= highestfitness
        invariant if k == 0 then highest == 0 && highestfitness == 0.0
                  else Largest(raw, k, highest) && highestfitness == raw[highest]
      {
        var fit := CountMatches(k);
        fitness[k] := Fitness(fit, |target|);
        assert fitness[k] == raw[k];
        if fitness[k] > highestfitness {
          highestfitness := fitness[k];
          highest := k;
        }
        cumulativeprobability := cumulativeprobability + fitness[k];
        k := k + 1;
      }
      assert fitness[..] == raw;
    }

    /** The second pass: what is below the mean becomes zero, the rest is summed. */
    method Truncate(mean: real, ghost raw: seq<real>)
      requires Valid() && fitness[..] == raw && mean == Total(raw, |raw|) / |raw| as real
      modifies fitness, this
      ensures fitness[..] == Truncated(raw) && cumulativeprobability == Total(Truncated(raw), |raw|)
    {
      cumulativeprobability := 0.0;
      ghost var kept := Truncated(raw);
      var k := 0;
      while k < |genes|
        invariant 0 <= k <= |genes| && cumulativeprobability == Total(kept, k)
        invariant forall j | 0 <= j < k :: fitness[j] == kept[j]
        invariant forall j | k <= j < |genes| :: fitness[j] == raw[j]
      {
        assert kept[k] == if raw[k] < mean then 0.0 else raw[k];
        if fitness[k] < mean {
          fitness[k] := 0.0;
        } else {
          cumulativeprobability := cumulativeprobability + fitness[k];
        }
        k := k + 1;
      }
      assert fitness[..] == kept;
    }

    /** Measures every individual; the fittest is returned and keeps its fitness. */
    method Evaluate() returns (highest: nat)
      requires Valid()
      modifies fitness, this
      ensures fitness[..] == Truncated(Raw(target, genes)) && cumulativeprobability == Total(fitness[..], |genes|)
      ensures Largest(Raw(target, genes), |genes|, highest) && Largest(fitness[..], |genes|, highest)
              && fitness[highest] == Raw(target, genes)[highest]
      ensures BestMatch(target, genes, highest)
      ensures forall k | 0 <= k < |genes| :: fitness[k] >= 0.0
    {
      highest := Measure();
      LargestMatches(target, genes, highest);
      Truncate(cumulativeprobability / |genes| as real, Raw(target, genes));
      LargestKept(Raw(target, genes), highest);
      assert forall k | 0 <= k < |genes| :: fitness[k] == fitness[..][k];
    }

    /** The scan for a draw `u`: how many individuals it takes until their fitness reaches that share of the sum. */
    method Select(u: real) returns (i: nat)
      requires Valid() && u <= 1.0 && cumulativeprobability == Total(fitness[..], |genes|)
      requires forall k | 0 <= k < |genes| :: fitness[k] >= 0.0
      ensures i <= |genes| && Draw(u, cumulativeprobability) <= Total(fitness[..], i)
      ensures forall j | 0 <= j < i :: Total(fitness[..], j) < Draw(u, cumulativeprobability)
      ensures i > 0 ==> fitness[i - 1] > 0.0
      ensures i == |genes| <==> Total(fitness[..], |genes| - 1) < Draw(u, cumulativeprobability)
    {
      var sum, r := 0.0, Draw(u, cumulativeprobability);
      TotalMonotone(fitness[..], 0, |genes|);
      Share(u, cumulativeprobability);
      i := 0;
      while r > sum
        invariant 0 <= i <= |genes| && sum == Total(fitness[..], i)
        invariant forall j | 0 <= j < i :: Total(fitness[..], j) < r
        decreases |genes| - i
      {
        sum := sum + fitness[i];
        i := i + 1;
      }
      if i < |genes| { TotalMonotone(fitness[..], i, |genes| - 1); }
    }
  }

  /** The point of the wheel that a draw between 0 and 1 stands for. */
  function Draw(u: real, total: real): real { u * total }

  /** A draw passes a part of the wheel exactly when it exceeds its share of the whole. */
  lemma DrawPasses(u: real, total: real, part: real)
    requires total > 0.0
    ensures part < Draw(u, total) <==> part / total < u
  {
    var q := part / total;
    assert q * total == part;
    if q < u { assert q * total < u * total; }
    if q > u { assert q * total > u * total; }
  }

  /** A fitness survives exactly when it is at least the mean. */
  lemma TruncatedIs(f: seq<real>, k: nat)
    requires k < |f|
    ensures Truncated(f)[k] == if Times(f[k], |f| as real) < Total(f, |f|) then 0.0 else f[k]
  {
    BelowMean(f[k], Total(f, |f|), |f| as real);
  }

  lemma BelowMean(x: real, total: real, n: real)
    requires n > 0.0
    ensures x < total / n <==> Times(x, n) < total
  {
    var mean := total / n;
    assert mean * n == total;
    if x < mean { LessTimes(x, mean, n); } else if x > mean { LessTimes(mean, x, n); }
  }

  lemma LessTimes(a: real, b: real, n: real)
    requires a < b && n > 0.0
    ensures a * n < b * n
  {}

  lemma Share(u: real, total: real)
    requires u <= 1.0 && total >= 0.0
    ensures Draw(u, total) <= total
  {}

  lemma {:induction false} TotalMonotone(f: seq<real>, i: nat, n: nat)
    requires i <= n <= |f| && forall k | 0 <= k < |f| :: f[k] >= 0.0
    ensures Total(f, i) <= Total(f, n)
    decreases n
  {
    if i < n { TotalMonotone(f, i, n - 1); }
  }

  /** Evaluating a population and scanning for a draw: the scan never reads past the population. */
  method EvaluateAndSelect(target: seq<int>, genes: seq<seq<int>>, u: real)
      returns (highest: nat, fitness: seq<real>, i: nat)
    requires SameLength(target, genes) && u <= 1.0
    ensures fitness == Truncated(Raw(target, genes)) && Largest(Raw(target, genes), |genes|, highest)
            && Largest(fitness, |genes|, highest) && BestMatch(target, genes, highest)
    ensures i <= |genes| && Draw(u, Total(fitness, |genes|)) <= Total(fitness, i)
    ensures forall j | 0 <= j < i :: Total(fitness, j) < Draw(u, Total(fitness, |genes|))
  {
    var x := new Population(target, genes);
    highest := x.Evaluate();
    fitness := x.fitness[..];
    i := x.Select(u);
  }
}
