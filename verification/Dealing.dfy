/** How `partconv~` deals the partitions to the calls of one cycle. */
module Dealing {
  import opened Arithmetic

  /** The share of call `i` when `parts` partitions are dealt to `calls` calls. */
  function Share(parts: nat, calls: nat, i: int): (s: nat)
    requires 0 < calls
  {
    parts / calls + if i < parts % calls then 1 else 0
  }

  /** The number of partitions dealt to the calls before call `j`. */
  function Dealt(parts: nat, calls: nat, j: nat): (d: nat)
    requires 0 < calls
    decreases j
  {
    if j == 0 then 0 else Dealt(parts, calls, j - 1) + Share(parts, calls, j - 1)
  }

  lemma {:induction false} DealtClosed(parts: nat, calls: nat, j: nat)
    requires 0 < calls
    ensures Dealt(parts, calls, j) == j * (parts / calls) + if j < parts % calls then j else parts % calls
  {
    if j > 0 {
      DealtClosed(parts, calls, j - 1);
      assert j * (parts / calls) == (j - 1) * (parts / calls) + parts / calls;
    }
  }

  /** Every partition is dealt exactly once per cycle, in order, and never more than there are. */
  lemma {:induction false} DealtAll(parts: nat, calls: nat, j: nat)
    requires 0 < calls && j <= calls
    ensures Dealt(parts, calls, calls) == parts
    ensures Dealt(parts, calls, j) <= parts
    decreases calls - j
  {
    DealtClosed(parts, calls, calls);
    assert parts == calls * (parts / calls) + parts % calls;
    if j < calls { DealtAll(parts, calls, j + 1); }
  }

  /** The partitions done before call `j` if calls beyond the dealt ones get none. */
  function FirstDealt(parts: nat, calls: nat, j: nat): (d: nat)
    requires 0 < calls
  {
    Dealt(parts, calls, if j < calls then j else calls)
  }

  lemma FirstDealtNext(parts: nat, calls: nat, j: nat)
    requires 0 < calls
    ensures FirstDealt(parts, calls, j + 1)
            == FirstDealt(parts, calls, j) + if j < calls then Share(parts, calls, j) else 0
    ensures FirstDealt(parts, calls, j + 1) <= parts
    ensures FirstDealt(parts, calls, j + 1) > 0 <==> parts > 0
  {
    DealtAll(parts, calls, if j + 1 < calls then j + 1 else calls);
    DealtPositive(parts, calls, if j < calls then j + 1 else calls);
  }

  lemma {:induction false} DealtPositive(parts: nat, calls: nat, j: nat)
    requires 0 < calls && 0 < j
    ensures Dealt(parts, calls, j) > 0 <==> parts > 0
  {
    DealtClosed(parts, calls, j);
    if parts > 0 {
      FirstShare(parts, calls);
      if j > 1 { DealtPositive(parts, calls, j - 1); }
    } else if j > 1 {
      DealtPositive(parts, calls, j - 1);
    }
  }

  /** The first call always receives partition 0. */
  lemma FirstShare(parts: nat, calls: nat)
    requires 0 < calls && 0 < parts
    ensures Share(parts, calls, 0) > 0
  {}

  /** Dealing one by one in turn, as cards are dealt. */
  method DealWork(partsPerCall: array<nat>, parts: nat, calls: nat)
    requires 0 < calls <= partsPerCall.Length
    modifies partsPerCall
    ensures forall i | 0 <= i < calls :: partsPerCall[i] == Share(parts, calls, i)
    ensures forall i | calls <= i < partsPerCall.Length :: partsPerCall[i] == old(partsPerCall[i])
  {
    var i := 0;
    while i < calls
      invariant 0 <= i <= calls
      invariant forall j | 0 <= j < i :: partsPerCall[j] == 0
      invariant forall j | calls <= j < partsPerCall.Length :: partsPerCall[j] == old(partsPerCall[j])
    {
      partsPerCall[i] := 0;
      i := i + 1;
    }
    i := 0;
    var left := parts;
    ghost var round := 0;
    while left > 0
      invariant 0 <= i < calls && 0 <= round && 0 <= left <= parts
      invariant parts - left == round * calls + i
      invariant forall j | 0 <= j < calls :: partsPerCall[j] == round + if j < i then 1 else 0
      invariant forall j | calls <= j < partsPerCall.Length :: partsPerCall[j] == old(partsPerCall[j])
    {
      partsPerCall[i] := partsPerCall[i] + 1;
      left := left - 1;
      if i + 1 == calls {
        DivModUnique(i + 1, calls, 1, 0);
        assert (round + 1) * calls == round * calls + calls;
        round := round + 1;
      } else {
        ModSmall(i + 1, calls);
      }
      i := (i + 1) % calls;
    }
    DivModUnique(parts, calls, round, i);
  }
}
