/** The `oneoverf` object: 1/f noise as the sum of random generators that are renewed at halving rates. */
module OneOverF {
  import opened Arithmetic
  import opened Summation
  import opened Positional

  /** The exponent of 2 in `t`. */
  function Exponent2(t: nat): (e: nat)
    requires 0 < t
  {
    if t % 2 == 1 then 0 else 1 + Exponent2(t / 2)
  }

  /** The generator that tick `t` renews, of `n`. */
  function Renewed(n: nat, t: nat): (i: nat)
    requires 0 < n && 0 < t
    ensures i < n
  {
    if Exponent2(t) < n - 1 then Exponent2(t) else n - 1
  }

  /** The ticks after which the renewals of `n` generators start over. */
  function Period(n: nat): (m: nat)
    requires 0 < n
    ensures 0 < m
  {
    PowerPositive(2, n - 1);
    Power(2, n - 1)
  }

  lemma EvenStep(t: nat, i: nat)
    ensures Moves(2, t, i + 1) <==> t % 2 == 0 && Moves(2, t / 2, i)
  {
    PowerPositive(2, i);
    DivisibleByProduct(t, 2, Power(2, i));
    assert Power(2, i) * 2 == Power(2, i + 1);
  }

  /** The exponent is the largest power of 2 that divides. */
  lemma {:induction false} ExponentDivides(t: nat, i: nat)
    requires 0 < t
    ensures Moves(2, t, i) <==> i <= Exponent2(t)
    decreases i
  {
    if i > 0 {
      EvenStep(t, i - 1);
      if t % 2 == 0 { ExponentDivides(t / 2, i - 1); }
    }
  }

  /** Tick `t` renews generator `i` just when `2^i` divides `t` and, unless `i` is the last, `2^(i+1)` does not. */
  lemma RenewedDivides(n: nat, t: nat, i: nat)
    requires 0 < n && 0 < t && i < n
    ensures Renewed(n, t) == i <==> Moves(2, t, i) && (i + 1 < n ==> !Moves(2, t, i + 1))
  {
    ExponentDivides(t, i);
    ExponentDivides(t, i + 1);
  }

  /** How many of the ticks `1 .. ticks` renew generator `i`. */
  function Renewals(n: nat, i: nat, ticks: nat): (count: nat)
    requires 0 < n
  {
    if ticks == 0 then 0 else Renewals(n, i, ticks - 1) + if Renewed(n, ticks) == i then 1 else 0
  }

  /** Generator `i` is renewed at every second multiple of `2^i`, the last one at every multiple. */
  lemma {:induction false} RenewalRate(n: nat, i: nat, ticks: nat)
    requires 0 < n && i < n
    ensures Renewals(n, i, ticks) == Turns(2, ticks, i) - if i + 1 < n then Turns(2, ticks, i + 1) else 0
    decreases ticks
  {
    PowerPositive(2, i);
    PowerPositive(2, i + 1);
    if ticks == 0 {
      ModSmall(0, Power(2, i));
      ModSmall(0, Power(2, i + 1));
    } else {
      RenewalRate(n, i, ticks - 1);
      RenewedDivides(n, ticks, i);
      EvenStep(ticks, i);
      DivSuccessor(ticks - 1, Power(2, i));
      DivSuccessor(ticks - 1, Power(2, i + 1));
      EvenLess(ticks, i);
    }
  }

  lemma EvenLess(t: nat, i: nat)
    ensures Moves(2, t, i + 1) ==> Moves(2, t, i)
  {
    PowerPositive(2, i);
    DivisibleByProduct(t, Power(2, i), 2);
  }

  /** In `2^(n-1)` ticks the last generator is renewed once and generator `i` below it `2^(n-2-i)` times. */
  lemma RenewalsPerPeriod(n: nat, i: nat)
    requires 0 < n && i < n
    ensures Renewals(n, i, Period(n)) == if i == n - 1 then 1 else Power(2, n - 2 - i)
  {
    PowerPositive(2, i);
    PowerAdd(2, n - 1 - i, i);
    DivModUnique(Power(2, n - 1), Power(2, i), Power(2, n - 1 - i), 0);
    RenewalRate(n, i, Period(n));
    if i < n - 1 {
      PowerPositive(2, i + 1);
      PowerAdd(2, n - 2 - i, i + 1);
      DivModUnique(Power(2, n - 1), Power(2, i + 1), Power(2, n - 2 - i), 0);
      assert Power(2, n - 1 - i) == 2 * Power(2, n - 2 - i);
    }
  }

  /** Divisibility by a lower power can be seen from the remainder by a higher one. */
  lemma EvenRemainder(t: nat, n: nat, i: nat)
    requires i < n
    ensures Moves(2, t, i) <==> Moves(2, t % Period(n), i)
  {
    PowerPositive(2, i);
    PowerAdd(2, n - 1 - i, i);
    RemainderOfRemainder(t, Period(n), Power(2, i), Power(2, n - 1 - i));
  }

  /** What the descending search for a divisible power of 2 finds in the counter at tick `t`. */
  lemma SearchFinds(n: nat, counter: nat, t: nat, i: nat)
    requires i < n && 0 < t
    requires counter % Period(n) == t % Period(n)
    requires Moves(2, counter, i) && forall k | i < k < n :: !Moves(2, counter, k)
    ensures Renewed(n, t) == i
  {
    EvenRemainder(t, n, i);
    EvenRemainder(counter, n, i);
    if i + 1 < n {
      EvenRemainder(t, n, i + 1);
      EvenRemainder(counter, n, i + 1);
      assert !Moves(2, counter, i + 1);
    }
    RenewedDivides(n, t, i);
  }

  lemma {:induction false} TotalBounds(rans: seq<real>, n: nat, cap: real)
    requires n <= |rans| && forall i | 0 <= i < n :: 0.0 <= rans[i] <= cap
    ensures 0.0 <= Total(rans, n) <= n as real * cap
  {
    if n > 0 {
      TotalBounds(rans, n - 1, cap);
      assert n as real * cap == (n - 1) as real * cap + cap;
    }
  }

  lemma {:induction false} TotalUpdate(rans: seq<real>, n: nat, i: nat, v: real)
    requires i < n <= |rans|
    ensures Total(rans[i := v], n) == Total(rans, n) + v - rans[i]
  {
    if i == n - 1 {
      TotalSame(rans, rans[i := v], n - 1);
    } else {
      TotalUpdate(rans, n - 1, i, v);
    }
  }

  /** The descending search for a power of 2 below `2^n` that divides the counter. */
  method LargestPower(n: nat, counter: nat) returns (i: nat)
    requires 0 < n
    ensures i < n && Moves(2, counter, i) && forall k | i < k < n :: !Moves(2, counter, k)
  {
    i := n - 1;
    while !Moves(2, counter, i)
      invariant i < n && forall k | i < k < n :: !Moves(2, counter, k)
      decreases i
    {
      assert i != 0;
      i := i - 1;
    }
  }

  lemma SharesMakeOne(n: nat, share: real)
    requires 0 < n && share == 1.0 / n as real
    ensures n as real * share == 1.0
  {}

  lemma ShareBounds(n: nat, draw: real)
    requires 0 < n && 0.0 <= draw <= 1.0
    ensures 0.0 <= draw / n as real <= 1.0 / n as real
  {}

  /** Draws the first value of every generator and adds them up. */
  method DrawAll(rans: array<real>, n: nat, draws: seq<real>) returns (sum: real)
    requires 0 < n <= rans.Length && |draws| == n && forall i | 0 <= i < n :: 0.0 <= draws[i] <= 1.0
    modifies rans
    ensures forall i | 0 <= i < n :: rans[i] == draws[i] / n as real && 0.0 <= rans[i] <= 1.0 / n as real
    ensures sum == Total(rans[..], n)
  {
    sum := 0.0;
    for i := 0 to n
      invariant forall k | 0 <= k < i :: rans[k] == draws[k] / n as real && 0.0 <= rans[k] <= 1.0 / n as real
      invariant sum == Total(rans[..], i)
    {
      ghost var before := rans[..];
      ShareBounds(n, draws[i]);
      rans[i] := draws[i] / n as real;
      TotalSame(before, rans[..], i);
      sum := sum + rans[i];
    }
  }

  class Noise {
    const n: nat                 // number of generators
    const rans: array<real>
    var counter: nat
    var output: real
    ghost var ticks: nat

    ghost predicate Valid()
      reads this, rans
    {
      && 1 <= n <= 31 && rans.Length == 32
      && counter == ticks % Period(n)
      && (forall i | 0 <= i < n :: 0.0 <= rans[i] <= 1.0 / n as real)
      && output == Total(rans[..], n)
    }

    /** The output is a sum of `n` shares of at most `1/n`. */
    lemma OutputInUnitInterval()
      requires Valid()
      ensures 0.0 <= output <= 1.0
    {
      TotalBounds(rans[..], n, 1.0 / n as real);
      SharesMakeOne(n, 1.0 / n as real);
    }

    /** A new object; `draws` are the random numbers it takes. */
    constructor (n: nat, draws: seq<real>)
      requires 1 <= n <= 31 && |draws| == n && forall i | 0 <= i < n :: 0.0 <= draws[i] <= 1.0
      ensures Valid() && ticks == 0 && this.n == n && fresh(rans)
      ensures forall i | 0 <= i < n :: rans[i] == draws[i] / n as real
    {
      this.n := n;
      var generators := new real[32];
      var sum := DrawAll(generators, n, draws);
      rans, output := generators, sum;
      counter, ticks := 0, 0;
      ModSmall(0, Period(n));
    }

    /**
     Sends out the sum, then renews exactly one generator, the one whose turn the tick is, from the
     random number `draw`.
     */
    method Bang(draw: real) returns (out: real)
      requires Valid() && 0.0 <= draw <= 1.0
      modifies this, rans
      ensures Valid() && ticks == old(ticks) + 1 && out == old(output)
      ensures rans[..] == old(rans[..])[Renewed(n, ticks) := draw / n as real]
      ensures -(1.0 / n as real) <= output - old(output) <= 1.0 / n as real
    {
      out := output;
      counter := counter + 1;
      ticks := ticks + 1;
      CounterStep(ticks - 1, counter - 1, Period(n));
      var i := LargestPower(n, counter);
      SearchFinds(n, counter, ticks, i);
      CounterReset(ticks, counter, n, i);
      if i == n - 1 {
        counter := 0;
      }
      ShareBounds(n, draw);
      TotalUpdate(rans[..], n, i, draw / n as real);
      rans[i] := draw / n as real;
      output := SumUp();
    }

    method SumUp() returns (sum: real)
      requires n <= rans.Length
      ensures sum == Total(rans[..], n)
    {
      sum := 0.0;
      for i := 0 to n
        invariant sum == Total(rans[..], i)
      {
        sum := sum + rans[i];
      }
    }
  }

  lemma CounterStep(ticks: nat, counter: nat, m: nat)
    requires 0 < m && counter == ticks % m
    ensures (counter + 1) % m == (ticks + 1) % m
  {
    ModAdd(ticks, 1, m);
  }

  /** The counter is put back to zero just when it has reached the period. */
  lemma CounterReset(ticks: nat, counter: nat, n: nat, i: nat)
    requires i < n && 0 < counter && Moves(2, counter, i) && forall k | i < k < n :: !Moves(2, counter, k)
    requires counter <= Period(n) && counter % Period(n) == ticks % Period(n)
    ensures (if i == n - 1 then 0 else counter) == ticks % Period(n)
  {
    if i < n - 1 {
      assert !Moves(2, counter, n - 1);
      if counter == Period(n) { DivModUnique(counter, Period(n), 1, 0); }
      ModSmall(counter, Period(n));
    }
  }
}
