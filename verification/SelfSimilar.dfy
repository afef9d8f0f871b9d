/** The `selfsimilar` object: a melody played at several speeds at once, as an odometer of note positions. */
module SelfSimilar {
  import opened Arithmetic
  import opened Positional

  const MAX_LEVELS: nat := 16
  const MAX_NOTES: nat := 16

  /** The melody with its transposition between levels. */
  datatype Tune = Tune(melody: seq<int>, transpose: int) {

    predicate Playable() { 0 < |melody| <= MAX_NOTES }

    /** The offsets of the digits of `t` from level `l` upwards, below level `levels`. */
    function OffsetSum(t: nat, l: nat, levels: nat): int
      requires Playable()
      decreases levels - l
    {
      if levels <= l then 0 else melody[Digit(|melody|, t, l)] - melody[0] + OffsetSum(t, l + 1, levels)
    }

    /** The note of level `l` of `levels` after `t` bangs. */
    function Note(levels: nat, t: nat, l: nat): int
      requires Playable() && l < levels
    {
      melody[0] + OffsetSum(t, l, levels) + transpose * (levels - l - 1)
    }

    /** What bang `t` sends out at the levels below `upto`: the notes of those whose position has just moved. */
    function Emitted(levels: nat, t: nat, upto: nat): (out: seq<(nat, int)>)
      requires Playable() && upto <= levels
      decreases upto
    {
      if upto == 0 then []
      else
        var l := upto - 1;
        Emitted(levels, t, l) + if Moves(|melody|, t, l) then [(l, Note(levels, t, l))] else []
    }

    /** All notes that level `l` sends out in the first `bangs` bangs, in order. */
    function Voice(levels: nat, l: nat, bangs: nat): (notes: seq<int>)
      requires Playable() && l < levels
    {
      if bangs == 0 then []
      else Voice(levels, l, bangs - 1) + if Moves(|melody|, bangs - 1, l) then [Note(levels, bangs - 1, l)] else []
    }
  }

  lemma {:induction false} OffsetSumShift(tune: Tune, s: nat, l: nat, j: nat, levels: nat)
    requires tune.Playable()
    ensures tune.OffsetSum(Power(|tune.melody|, l) * s, l + j, l + levels) == tune.OffsetSum(s, j, levels)
    decreases levels - j
  {
    if j < levels {
      DigitShift(|tune.melody|, s, l, j);
      OffsetSumShift(tune, s, l, j + 1, levels);
    }
  }

  /** Level `l + j` at the moments when level `l` moves is level `j` of an object with `l` levels fewer. */
  lemma NoteShift(tune: Tune, levels: nat, s: nat, l: nat, j: nat)
    requires tune.Playable() && j < levels
    ensures tune.Note(l + levels, Power(|tune.melody|, l) * s, l + j) == tune.Note(levels, s, j)
  {
    OffsetSumShift(tune, s, l, j, levels);
    assert (l + levels) - (l + j) - 1 == levels - j - 1;
  }

  /** The top level plays the melody itself. */
  lemma TopNote(tune: Tune, levels: nat, t: nat, top: nat)
    requires tune.Playable() && top + 1 == levels
    ensures tune.Note(levels, t, top) == tune.melody[Digit(|tune.melody|, t, top)]
  {
    assert tune.OffsetSum(t, top, levels)
      == tune.melody[Digit(|tune.melody|, t, top)] - tune.melody[0] + tune.OffsetSum(t, top + 1, levels);
  }

  /** Every level below hangs on the one above it, one transposition away. */
  lemma NoteStep(tune: Tune, levels: nat, t: nat, l: nat)
    requires tune.Playable() && l + 1 < levels
    ensures tune.Note(levels, t, l)
            == tune.melody[Digit(|tune.melody|, t, l)] - tune.melody[0] + (tune.Note(levels, t, l + 1) + tune.transpose)
  {}

  /** Between two moves of level `l` it is silent. */
  lemma {:induction false} VoiceSilent(tune: Tune, levels: nat, l: nat, from: nat, bangs: nat)
    requires tune.Playable() && l < levels && from <= bangs
    requires forall t | from <= t < bangs :: !Moves(|tune.melody|, t, l)
    ensures tune.Voice(levels, l, bangs) == tune.Voice(levels, l, from)
    decreases bangs
  {
    if from < bangs { VoiceSilent(tune, levels, l, from, bangs - 1); }
  }

  lemma NoMoveBetween(n: nat, l: nat, s: nat, t: nat)
    requires 0 < n && Power(n, l) * s < t < Power(n, l) * (s + 1)
    ensures !Moves(n, t, l)
  {
    var m := Power(n, l);
    PowerPositive(n, l);
    assert m * (s + 1) == m * s + m;
    DivModUnique(t, m, s, t - m * s);
  }

  /**
   Self-similarity of whole runs: what level `l` sends out in `n^l * count` bangs is, note for note and
   in order, what level 0 of an object with the same melody and `l` levels fewer sends out in `count`.
   */
  lemma {:induction false} SelfSimilarity(tune: Tune, levels: nat, l: nat, count: nat)
    requires tune.Playable() && 0 < levels
    ensures tune.Voice(l + levels, l, Power(|tune.melody|, l) * count) == tune.Voice(levels, 0, count)
    decreases count
  {
    var n := |tune.melody|;
    var m := Power(n, l);
    PowerPositive(n, l);
    if count == 0 {
      assert m * 0 == 0;
    } else {
      var s := count - 1;
      SelfSimilarity(tune, levels, l, s);
      VoiceTurn(tune, l + levels, l, s);
      NoteShift(tune, levels, s, l, 0);
      assert Moves(n, s, 0);
    }
  }

  /** In one turn of the positions below it, a level plays exactly one note, at the start. */
  lemma VoiceTurn(tune: Tune, levels: nat, l: nat, s: nat)
    requires tune.Playable() && l < levels
    ensures var m := Power(|tune.melody|, l);
            tune.Voice(levels, l, m * (s + 1)) == tune.Voice(levels, l, m * s) + [tune.Note(levels, m * s, l)]
  {
    var n := |tune.melody|;
    var m := Power(n, l);
    PowerPositive(n, l);
    assert m * (s + 1) == m * s + m;
    forall t | m * s + 1 <= t < m * (s + 1) ensures !Moves(n, t, l) { NoMoveBetween(n, l, s, t); }
    VoiceSilent(tune, levels, l, m * s + 1, m * (s + 1));
    assert Moves(n, m * s, l) by { DivModUnique(m * s, m, s, 0); }
  }

  /** After `n^levels` bangs every level plays the same notes again. */
  lemma {:induction false} OffsetsRepeat(tune: Tune, levels: nat, t: nat, l: nat)
    requires tune.Playable()
    ensures tune.OffsetSum(t + Power(|tune.melody|, levels), l, levels) == tune.OffsetSum(t, l, levels)
    decreases levels - l
  {
    if l < levels {
      Periodic(|tune.melody|, t, levels, l);
      OffsetsRepeat(tune, levels, t, l + 1);
    }
  }

  lemma {:induction false} EmissionsRepeat(tune: Tune, levels: nat, t: nat, upto: nat)
    requires tune.Playable() && upto <= levels
    ensures tune.Emitted(levels, t + Power(|tune.melody|, levels), upto) == tune.Emitted(levels, t, upto)
    decreases upto
  {
    if upto > 0 {
      Periodic(|tune.melody|, t, levels, upto - 1);
      OffsetsRepeat(tune, levels, t, upto - 1);
      EmissionsRepeat(tune, levels, t, upto - 1);
    }
  }

  /** The levels and tune that the creation arguments select. */
  function Configure(args: seq<int>): (r: (nat, Tune))
    ensures 2 <= r.0 <= MAX_LEVELS
    ensures |args| <= MAX_NOTES + 2 ==> r.1.Playable()
  {
    var levels := if |args| == 0 then 3 else if |args| == 2 then 0 else args[0];
    var clipped := if levels > MAX_LEVELS then MAX_LEVELS else if levels < 2 then 2 else levels;
    var transpose := if |args| < 2 then 12 else args[1];
    (clipped, Tune(if |args| > 2 then args[2..] else [54, 57, 52, 61], transpose))
  }

  /** The number of levels, between 2 and 16. */
  ghost predicate Clips(asked: int, levels: nat) {
    && (2 <= asked <= 16 ==> levels == asked) && (asked < 2 ==> levels == 2) && (asked > 16 ==> levels == 16)
  }

  /** Levels, transposition and melody come in this order; what is not given is 3, 12 and a tune of four notes. */
  lemma ConfigureFields(args: seq<int>)
    ensures var (levels, tune) := Configure(args);
            && (|args| == 0 ==> levels == 3 && tune == Tune([54, 57, 52, 61], 12))
            && (|args| == 1 ==> Clips(args[0], levels) && tune == Tune([54, 57, 52, 61], 12))
            && (|args| == 2 ==> levels == 2 && tune == Tune([54, 57, 52, 61], args[1]))
            && (|args| > 2 ==> Clips(args[0], levels) && tune == Tune(args[2..], args[1]))
  {}

  /** A bang sends its notes out from the lowest level to the highest, each that of its level. */
  lemma {:induction false} EmittedInOrder(tune: Tune, levels: nat, t: nat, upto: nat)
    requires tune.Playable() && upto <= levels
    ensures InOrder(tune, levels, t, upto, tune.Emitted(levels, t, upto))
    decreases upto
  {
    if upto > 0 {
      EmittedInOrder(tune, levels, t, upto - 1);
      OneMoreInOrder(tune, levels, t, upto - 1, tune.Emitted(levels, t, upto - 1));
    }
  }

  ghost predicate InOrder(tune: Tune, levels: nat, t: nat, upto: nat, out: seq<(nat, int)>)
    requires tune.Playable() && upto <= levels
  {
    && (forall i, j | 0 <= i < j < |out| :: out[i].0 < out[j].0)
    && (forall i | 0 <= i < |out| :: InTurn(tune, levels, t, upto, out[i]))
  }

  ghost predicate InTurn(tune: Tune, levels: nat, t: nat, upto: nat, sent: (nat, int))
    requires tune.Playable() && upto <= levels
  {
    sent.0 < upto && Moves(|tune.melody|, t, sent.0) && sent.1 == tune.Note(levels, t, sent.0)
  }

  lemma OneMoreInOrder(tune: Tune, levels: nat, t: nat, l: nat, out: seq<(nat, int)>)
    requires tune.Playable() && l < levels && InOrder(tune, levels, t, l, out)
    ensures InOrder(tune, levels, t, l + 1, out)
    ensures Moves(|tune.melody|, t, l) ==> InOrder(tune, levels, t, l + 1, out + [(l, tune.Note(levels, t, l))])
  {
    forall i | 0 <= i < |out| ensures InTurn(tune, levels, t, l + 1, out[i]) {
      assert InTurn(tune, levels, t, l, out[i]);
    }
  }

  class Player {
    const levels: nat
    const tune: Tune
    const melodypos: array<nat>
    const poschanged: array<bool>
    const noteLevel: array<int>
    ghost var bangs: nat

    ghost predicate Shape() {
      && tune.Playable() && 2 <= levels
      && melodypos.Length == poschanged.Length == noteLevel.Length == levels
    }

    /** Positions below `upto` and their flags are those of time `t`. */
    ghost predicate Shows(t: nat, upto: nat)
      requires Shape() && upto <= levels
      reads melodypos, poschanged
    {
      forall i | 0 <= i < upto ::
        melodypos[i] == Digit(|tune.melody|, t, i) && poschanged[i] == Moves(|tune.melody|, t, i)
    }

    /** The state after `bangs` bangs. */
    ghost predicate Valid()
      reads this, melodypos, poschanged, noteLevel
    {
      && Shape() && Shows(bangs, levels)
      && (forall l | 0 <= l < levels :: noteLevel[l] == tune.Note(levels, bangs, l))
    }

    constructor (args: seq<int>)
      requires |args| <= 18
      ensures Valid() && bangs == 0 && (levels, tune) == Configure(args)
      ensures fresh(melodypos) && fresh(poschanged) && fresh(noteLevel)
    {
      var (levels, tune) := Configure(args);
      this.levels, this.tune := levels, tune;
      melodypos := new nat[levels](_ => 0);
      poschanged := new bool[levels](_ => true);
      noteLevel := new int[levels](i => tune.melody[0] + tune.transpose * (levels - i - 1));
      bangs := 0;
      new;
      forall i | 0 <= i < levels ensures Digit(|tune.melody|, 0, i) == 0 && Moves(|tune.melody|, 0, i) {
        StartDigit(|tune.melody|, i);
      }
      forall l | 0 <= l < levels ensures noteLevel[l] == tune.Note(levels, 0, l) { StartNote(tune, l, levels); }
    }

    /** Moves position `level` one on if all positions below it have come round; tells whether it came round itself. */
    method ChangePosition(level: nat, ghost t: nat) returns (carry: bool)
      requires Shape() && level < levels
      requires forall i | 0 <= i <= level :: melodypos[i] == Digit(|tune.melody|, t, i)
      modifies melodypos, poschanged
      ensures Shows(t + 1, level + 1)
      ensures carry == Moves(|tune.melody|, t + 1, level + 1)
      ensures forall i | level < i < levels :: melodypos[i] == old(melodypos[i]) && poschanged[i] == old(poschanged[i])
    {
      DigitStep(|tune.melody|, t, level);
      if level == 0 {
        melodypos[level] := melodypos[level] + 1;
        poschanged[level] := true;
        assert Moves(|tune.melody|, t + 1, 0);
      } else {
        var below := ChangePosition(level - 1, t);
        if below {
          melodypos[level] := melodypos[level] + 1;
          poschanged[level] := true;
        } else {
          poschanged[level] := false;
          return false;
        }
      }
      if melodypos[level] > |tune.melody| - 1 {
        melodypos[level] := 0;
        poschanged[level] := true;
        return true;
      } else {
        return false;
      }
    }

    /** Sets the notes of `level` and all levels below it, given the note the level hangs on. */
    method CreateMelody(level: nat, upper: int, ghost t: nat)
      requires Shape() && level + 1 < levels && Shows(t, levels)
      requires upper == tune.Note(levels, t, level + 1) + tune.transpose
      modifies noteLevel
      ensures forall l | 0 <= l <= level :: noteLevel[l] == tune.Note(levels, t, l)
      ensures forall l | level < l < levels :: noteLevel[l] == old(noteLevel[l])
    {
      NoteStep(tune, levels, t, level);
      if level == 0 {
        var note := tune.melody[melodypos[level]] - tune.melody[0];
        noteLevel[level] := note + upper;
      } else {
        var current := tune.melody[melodypos[level]] - tune.melody[0] + upper;
        CreateMelody(level - 1, current + tune.transpose, t);
        noteLevel[level] := current;
      }
    }

    /** The notes of the levels that have just changed, lowest level first. */
    method SendOut() returns (out: seq<(nat, int)>)
      requires Valid()
      ensures out == tune.Emitted(levels, bangs, levels)
    {
      out := [];
      var i := 0;
      while i < levels
        invariant 0 <= i <= levels && out == tune.Emitted(levels, bangs, i)
      {
        if poschanged[i] {
          out := out + [(i, noteLevel[i])];
        }
        i := i + 1;
      }
    }

    /** Sends out what has changed, then steps the odometer and computes the next notes. */
    method Bang() returns (out: seq<(nat, int)>)
      requires Valid()
      modifies this, melodypos, poschanged, noteLevel
      ensures Valid() && bangs == old(bangs) + 1
      ensures out == tune.Emitted(levels, old(bangs), levels)
    {
      out := SendOut();
      var carry := ChangePosition(levels - 1, bangs);
      bangs := bangs + 1;
      var top := levels - 1;
      noteLevel[top] := tune.melody[melodypos[top]];
      TopNote(tune, levels, bangs, top);
      CreateMelody(levels - 2, noteLevel[top] + tune.transpose, bangs);
    }
  }

  /** The notes of one level among what a bang sends out. */
  function AtLevel(out: seq<(nat, int)>, l: nat): (notes: seq<int>) {
    if out == [] then []
    else
      var last := out[|out| - 1];
      AtLevel(out[..|out| - 1], l) + if last.0 == l then [last.1] else []
  }

  lemma {:induction false} EmittedAtLevel(tune: Tune, levels: nat, t: nat, upto: nat, l: nat)
    requires tune.Playable() && upto <= levels && l < levels
    ensures AtLevel(tune.Emitted(levels, t, upto), l)
            == if l < upto && Moves(|tune.melody|, t, l) then [tune.Note(levels, t, l)] else []
    decreases upto
  {
    if upto > 0 {
      EmittedAtLevel(tune, levels, t, upto - 1, l);
      AtLevelNext(tune.Emitted(levels, t, upto - 1), upto - 1, tune.Note(levels, t, upto - 1), l);
    }
  }

  lemma AtLevelNext(out: seq<(nat, int)>, k: nat, note: int, l: nat)
    ensures AtLevel(out + [(k, note)], l) == AtLevel(out, l) + if k == l then [note] else []
    ensures out + [] == out
  {
    assert (out + [(k, note)])[..|out|] == out;
  }

  /** One bang, heard at level `l` only. */
  method Hear(player: Player, l: nat) returns (notes: seq<int>)
    requires player.Valid() && l < player.levels
    modifies player, player.melodypos, player.poschanged, player.noteLevel
    ensures player.Valid() && player.bangs == old(player.bangs) + 1
    ensures player.tune.Voice(player.levels, l, player.bangs)
            == player.tune.Voice(player.levels, l, old(player.bangs)) + notes
  {
    var out := player.Bang();
    EmittedAtLevel(player.tune, player.levels, old(player.bangs), player.levels, l);
    notes := AtLevel(out, l);
  }

  /** A whole run: `count` bangs of a new object, heard at level `l`. */
  method Listen(args: seq<int>, l: nat, count: nat) returns (notes: seq<int>)
    requires |args| <= MAX_NOTES + 2 && l < Configure(args).0
    ensures notes == Configure(args).1.Voice(Configure(args).0, l, count)
  {
    var player := new Player(args);
    notes := [];
    for k := 0 to count
      invariant player.Valid() && player.bangs == k && l < player.levels
      invariant fresh(player) && fresh(player.melodypos) && fresh(player.poschanged) && fresh(player.noteLevel)
      invariant notes == player.tune.Voice(player.levels, l, k)
    {
      var more := Hear(player, l);
      notes := notes + more;
    }
  }

  lemma StartDigit(n: nat, i: nat)
    requires 0 < n
    ensures Digit(n, 0, i) == 0 && Moves(n, 0, i)
  {
    PowerPositive(n, i);
    ModSmall(0, Power(n, i));
    ModSmall(0, n);
  }

  lemma {:induction false} StartOffset(tune: Tune, l: nat, levels: nat)
    requires tune.Playable()
    ensures tune.OffsetSum(0, l, levels) == 0
    decreases levels - l
  {
    if l < levels {
      StartDigit(|tune.melody|, l);
      StartOffset(tune, l + 1, levels);
    }
  }

  lemma StartNote(tune: Tune, l: nat, levels: nat)
    requires tune.Playable() && l < levels
    ensures tune.Note(levels, 0, l) == tune.melody[0] + tune.transpose * (levels - l - 1)
  {
    StartOffset(tune, l, levels);
  }
}
