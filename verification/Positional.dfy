/** Powers, and the digits of a number counting up in a fixed base. */
module Positional {
  import opened Arithmetic

  function Power(n: nat, e: nat): (r: nat) {
    if e == 0 then 1 else n * Power(n, e - 1)
  }

  lemma {:induction false} PowerPositive(n: nat, e: nat)
    requires 0 < n
    ensures 0 < Power(n, e)
  {
    if e > 0 {
      PowerPositive(n, e - 1);
      MulAtLeast(n, Power(n, e - 1));
    }
  }

  lemma {:induction false} PowerAdd(n: nat, a: nat, b: nat)
    ensures Power(n, a + b) == Power(n, a) * Power(n, b)
  {
    if a > 0 {
      calc {
        Power(n, a + b);
        n * Power(n, (a - 1) + b);
        { PowerAdd(n, a - 1, b); }
        n * (Power(n, a - 1) * Power(n, b));
        { MulAssociates(n, Power(n, a - 1), Power(n, b)); }
        (n * Power(n, a - 1)) * Power(n, b);
      }
    }
  }

  lemma MulAssociates(a: nat, b: nat, c: nat)
    ensures a * (b * c) == (a * b) * c
  {}

  /** How often `n^i` fits into `t`. */
  function Turns(n: nat, t: nat, i: nat): (q: nat)
    requires 0 < n
  {
    PowerPositive(n, i);
    t / Power(n, i)
  }

  /** Digit `i` of `t` in base `n`. */
  function Digit(n: nat, t: nat, i: nat): (d: nat)
    requires 0 < n
    ensures d < n
  {
    Turns(n, t, i) % n
  }

  /** Position `i` moves at time `t`: all lower positions are back at their start. */
  predicate Moves(n: nat, t: nat, i: nat)
    requires 0 < n
  {
    PowerPositive(n, i);
    t % Power(n, i) == 0
  }

  lemma DivSuccessor(t: nat, m: nat)
    requires 0 < m
    ensures (t + 1) / m == t / m + if (t + 1) % m == 0 then 1 else 0
  {
    var q, r := t / m, t % m;
    assert t == q * m + r;
    if r + 1 == m {
      assert t + 1 == (q + 1) * m + 0;
      DivModUnique(t + 1, m, q + 1, 0);
    } else {
      DivModUnique(t + 1, m, q, r + 1);
    }
  }

  lemma NestedPlaces(q: int, n: int, r: int, m: int)
    ensures (q * n + r) * m == q * (n * m) + r * m
  {}

  lemma ProductRemainder(r: int, n: int, s: int, m: int)
    requires 0 <= r < n && 0 <= s < m
    ensures 0 <= r * m + s < n * m
    ensures r * m + s == 0 <==> r == 0 && s == 0
  {
    MulMonotone(r + 1, n, m);
    assert (r + 1) * m == r * m + m;
    if r > 0 { MulAtLeast(r, m); }
  }

  /** Divisibility by a product, in two steps. */
  lemma DivisibleByProduct(t: nat, m: nat, n: nat)
    requires 0 < m && 0 < n
    ensures 0 < n * m
    ensures t % (n * m) == 0 <==> t % m == 0 && (t / m) % n == 0
  {
    var q, r := t / m, t % m;
    var q', r' := q / n, q % n;
    ProductRemainder(r', n, r, m);
    NestedPlaces(q', n, r', m);
    DivModUnique(t, n * m, q', r' * m + r);
  }

  /** Counting one further, seen at the place of weight `m` in base `n`. */
  lemma PlaceStep(t: nat, m: nat, n: nat)
    requires 0 < m && 0 < n
    ensures (t + 1) % m != 0 ==> (t + 1) / m == t / m
    ensures (t + 1) % m == 0 && (t / m) % n + 1 < n ==> ((t + 1) / m) % n == (t / m) % n + 1
    ensures (t + 1) % m == 0 && (t / m) % n + 1 == n ==> ((t + 1) / m) % n == 0
  {
    DivSuccessor(t, m);
    var q := t / m;
    assert q == (q / n) * n + q % n;
    if q % n + 1 < n {
      DivModUnique(q + 1, n, q / n, q % n + 1);
    } else {
      assert q + 1 == (q / n + 1) * n + 0;
      DivModUnique(q + 1, n, q / n + 1, 0);
    }
  }

  /** One step of the odometer at position `i`. */
  lemma DigitStep(n: nat, t: nat, i: nat)
    requires 0 < n
    ensures !Moves(n, t + 1, i) ==> Digit(n, t + 1, i) == Digit(n, t, i) && !Moves(n, t + 1, i + 1)
    ensures Moves(n, t + 1, i) && Digit(n, t, i) + 1 < n
            ==> Digit(n, t + 1, i) == Digit(n, t, i) + 1 && !Moves(n, t + 1, i + 1)
    ensures Moves(n, t + 1, i) && Digit(n, t, i) + 1 == n ==> Digit(n, t + 1, i) == 0 && Moves(n, t + 1, i + 1)
  {
    PowerPositive(n, i);
    PlaceStep(t, Power(n, i), n);
    DivisibleByProduct(t + 1, Power(n, i), n);
  }

  lemma ScaledDivision(a: nat, b: nat, s: nat)
    requires 0 < a && 0 < b
    ensures 0 < a * b && (a * s) / (a * b) == s / b
    ensures (a * s) % (a * b) == 0 <==> s % b == 0
  {
    var q, r := s / b, s % b;
    MulAtLeast(a, b);
    assert s == q * b + r;
    assert a * s == q * (a * b) + a * r;
    assert a * r < a * b by { assert a * (r + 1) <= a * b; }
    DivModUnique(a * s, a * b, q, a * r);
    if r > 0 { MulAtLeast(r, a); }
  }

  /** Shifting time by a power of the base shifts the digits. */
  lemma DigitShift(n: nat, s: nat, l: nat, j: nat)
    requires 0 < n
    ensures Digit(n, Power(n, l) * s, l + j) == Digit(n, s, j)
    ensures Moves(n, Power(n, l) * s, l + j) <==> Moves(n, s, j)
  {
    PowerPositive(n, l);
    PowerPositive(n, j);
    PowerAdd(n, l, j);
    ScaledDivision(Power(n, l), Power(n, j), s);
  }

  /** The odometer of `levels` digits starts over after `n^levels` steps. */
  lemma Periodic(n: nat, t: nat, levels: nat, i: nat)
    requires 0 < n && i < levels
    ensures Digit(n, t + Power(n, levels), i) == Digit(n, t, i)
    ensures Moves(n, t + Power(n, levels), i) <==> Moves(n, t, i)
  {
    var m, rest := Power(n, i), Power(n, levels - i - 1);
    PowerPositive(n, i);
    PowerAdd(n, levels - i, i);
    assert Power(n, levels) == (rest * n) * m by { assert Power(n, levels - i) == n * rest; }
    ModPlusMultiple(t, m, rest * n);
    ModPlusMultiple(t / m, n, rest);
  }
}
