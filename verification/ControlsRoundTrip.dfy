/** Reading back what was written: which control lists survive, and what becomes of the others. */
module ControlsRoundTrip {
  import opened Wrappers
  import opened Paths
  import opened PathMeaning
  import opened Numerals
  import opened Controls

  /** The lines of a control before its end marker, as the reader finds them. */
  function BodyLines(home: Home, c: Control): (b: seq<string>)
    requires WellFormed(home, c)
  {
    AllChomped(Body(home, c))
  }

  function LinesOf(home: Home, cs: seq<Control>): seq<string>
    requires forall i | 0 <= i < |cs| :: WellFormed(home, cs[i])
  {
    AllChomped(AllTexts(home, cs))
  }

  /** The text field of `c` at line `i`. */
  function TextAt(home: Home, c: Control, i: nat): string
    requires WellFormed(home, c) && i in {1, 6, 7, 15}
  {
    Chomped(
      if i == 1 then LabelText(home, c)
      else if i == 6 then c.sendSymbol
      else if i == 7 then c.receiveSymbol
      else c.font.face)
  }

  /** No text field looks like the end marker, and an image can be found and loaded. */
  predicate Readable(home: Home, c: Control)
    requires WellFormed(home, c)
  {
    && (forall i | i in {1, 6, 7, 15} :: TextAt(home, c, i) != ENDCONTROLMARKER)
    && ReadLabel(home, c.kind, TextAt(home, c, 1)).Some?
  }

  /** The control that comes back: texts lose their line ends, a missing text colour turns black, a spin button loses
      its range. */
  function Restored(home: Home, c: Control): Control
    requires WellFormed(home, c) && Readable(home, c)
  {
    Control(c.kind, ReadLabel(home, c.kind, TextAt(home, c, 1)).value, c.x, c.y, c.width, c.height,
      TextAt(home, c, 6), TextAt(home, c, 7),
            c.back, if c.fore.NotOk? then Rgb(0, 0, 0) else c.fore, c.font.(face := TextAt(home, c, 15)),
            if ReadsRange(c.kind) then c.range else None)
  }

  function AllRestored(home: Home, cs: seq<Control>): seq<Control>
    requires forall i | 0 <= i < |cs| :: WellFormed(home, cs[i]) && Readable(home, cs[i])
  {
    if cs == [] then [] else [Restored(home, cs[0])] + AllRestored(home, cs[1..])
  }

  // The lines of one control.

  /** Numbers and colours come through unchanged and never look like the marker. */
  predicate Inert(s: string) { Chomped(s) == s && s != ENDCONTROLMARKER }

  lemma ReprInert(n: int)
    ensures Inert(Repr(n))
  {
    ChompedSame(Repr(n));
  }

  lemma ColourInert(c: Colour)
    requires c.Valid()
    ensures Inert(BackText(c)) && Inert(ForeText(c))
    ensures ParseColour(BackText(c)) == c && ParseColour(ForeText(c)) == if c.NotOk? then Rgb(0, 0, 0) else c
  {
    ChompedSame(BackText(c));
    ChompedSame(ForeText(c));
    if c.Rgb? { ParseHexString(c); }
  }

  lemma BodyParts(home: Home, c: Control)
    requires WellFormed(home, c)
    ensures |Body(home, c)| >= 16
    ensures Body(home, c)[..6] == HeadTexts(home, c) && Body(home, c)[6..10] == LookTexts(c)
    ensures Body(home, c)[10..16] == FontTexts(c.font) && Body(home, c)[16..] == RangeTexts(c.range)
  {}

  /** A line of the body is the chomped text of its part. */
  lemma PartLine(body: seq<string>, lo: nat, hi: nat, part: seq<string>, i: nat)
    requires lo + i < hi <= |body| && body[lo..hi] == part
    ensures i < |part| && AllChomped(body)[lo + i] == Chomped(part[i])
  {}

  lemma HeadLines(home: Home, c: Control)
    requires WellFormed(home, c)
    ensures |BodyLines(home, c)| == if Ranged(c.kind) then 19 else 16
    ensures var b := BodyLines(home, c);
            && b[0] == Repr(c.kind) && b[1] == TextAt(home, c, 1) && b[2] == Repr(c.x) && b[3] == Repr(c.y)
            && b[4] == Repr(c.width) && b[5] == Repr(c.height)
    ensures forall i | 0 <= i < 6 && i != 1 :: BodyLines(home, c)[i] != ENDCONTROLMARKER
  {
    var body, t := Body(home, c), HeadTexts(home, c);
    BodyParts(home, c);
    assert body[0..6] == t;
    forall i | 0 <= i < 6 ensures AllChomped(body)[i] == Chomped(t[i]) { PartLine(body, 0, 6, t, i); }
    ReprInert(c.kind);
    ReprInert(c.x);
    ReprInert(c.y);
    ReprInert(c.width);
    ReprInert(c.height);
  }

  lemma LookLines(home: Home, c: Control)
    requires WellFormed(home, c)
    ensures |BodyLines(home, c)| >= 16
    ensures var b := BodyLines(home, c);
            && b[6] == TextAt(home, c, 6) && b[7] == TextAt(home, c, 7) && b[8] == BackText(c.back)
            && b[9] == ForeText(c.fore)
            && b[8] != ENDCONTROLMARKER && b[9] != ENDCONTROLMARKER
  {
    var body, t := Body(home, c), LookTexts(c);
    BodyParts(home, c);
    PartLine(body, 6, 10, t, 0);
    PartLine(body, 6, 10, t, 1);
    PartLine(body, 6, 10, t, 2);
    PartLine(body, 6, 10, t, 3);
    ColourInert(c.back);
    ColourInert(c.fore);
  }

  lemma FontChomped(home: Home, c: Control)
    requires WellFormed(home, c)
    ensures |BodyLines(home, c)| >= 16
    ensures var b, t := BodyLines(home, c), FontTexts(c.font);
            && b[10] == Chomped(t[0]) && b[11] == Chomped(t[1]) && b[12] == Chomped(t[2]) && b[13] == Chomped(t[3])
            && b[14] == Chomped(t[4]) && b[15] == Chomped(t[5])
  {
    var body, t := Body(home, c), FontTexts(c.font);
    BodyParts(home, c);
    PartLine(body, 10, 16, t, 0);
    PartLine(body, 10, 16, t, 1);
    PartLine(body, 10, 16, t, 2);
    PartLine(body, 10, 16, t, 3);
    PartLine(body, 10, 16, t, 4);
    PartLine(body, 10, 16, t, 5);
  }

  lemma FontLines(home: Home, c: Control)
    requires WellFormed(home, c)
    ensures |BodyLines(home, c)| >= 16
    ensures var b, f := BodyLines(home, c), c.font;
            && b[10] == Repr(f.size) && b[11] == Repr(f.family) && b[12] == Repr(f.style) && b[13] == Repr(f.weight)
            && b[14] == Repr(f.underlined) && b[15] == TextAt(home, c, 15)
    ensures forall i | 10 <= i < 15 :: BodyLines(home, c)[i] != ENDCONTROLMARKER
  {
    FontChomped(home, c);
    FontInert(BodyLines(home, c), c.font);
  }

  lemma FontInert(b: seq<string>, f: Font)
    requires |b| >= 16 && b[10] == Chomped(Repr(f.size)) && b[11] == Chomped(Repr(f.family))
             && b[12] == Chomped(Repr(f.style))
    requires b[13] == Chomped(Repr(f.weight)) && b[14] == Chomped(Repr(f.underlined))
    ensures b[10] == Repr(f.size) && b[11] == Repr(f.family) && b[12] == Repr(f.style) && b[13] == Repr(f.weight)
            && b[14] == Repr(f.underlined)
    ensures forall i | 10 <= i < 15 :: b[i] != ENDCONTROLMARKER
  {
    ReprInert(f.size);
    ReprInert(f.family);
    ReprInert(f.style);
    ReprInert(f.weight);
    ReprInert(f.underlined);
  }

  lemma RangeLines(home: Home, c: Control)
    requires WellFormed(home, c) && Ranged(c.kind)
    ensures |BodyLines(home, c)| == 19
    ensures var b, r := BodyLines(home, c), c.range.value;
            b[16] == Repr(r.min) && b[17] == Repr(r.max) && b[18] == Repr(r.dir)
    ensures forall i | 16 <= i < 19 :: BodyLines(home, c)[i] != ENDCONTROLMARKER
  {
    RangeChomped(home, c);
    RangeInert(BodyLines(home, c), c.range.value);
  }

  lemma RangeChomped(home: Home, c: Control)
    requires WellFormed(home, c) && Ranged(c.kind)
    ensures |BodyLines(home, c)| == 19
    ensures var b, r := BodyLines(home, c), c.range.value;
            b[16] == Chomped(Repr(r.min)) && b[17] == Chomped(Repr(r.max)) && b[18] == Chomped(Repr(r.dir))
  {
    var body, t := Body(home, c), RangeTexts(c.range);
    BodyParts(home, c);
    assert body[16..19] == t;
    PartLine(body, 16, 19, t, 0);
    PartLine(body, 16, 19, t, 1);
    PartLine(body, 16, 19, t, 2);
  }

  lemma RangeInert(b: seq<string>, r: Range)
    requires |b| == 19 && b[16] == Chomped(Repr(r.min)) && b[17] == Chomped(Repr(r.max))
             && b[18] == Chomped(Repr(r.dir))
    ensures b[16] == Repr(r.min) && b[17] == Repr(r.max) && b[18] == Repr(r.dir)
    ensures forall i | 16 <= i < 19 :: b[i] != ENDCONTROLMARKER
  {
    ReprInert(r.min);
    ReprInert(r.max);
    ReprInert(r.dir);
  }

  /** Only a text field can look like the end marker. */
  lemma MarkerLines(home: Home, c: Control, i: nat)
    requires WellFormed(home, c) && i < |BodyLines(home, c)| && BodyLines(home, c)[i] == ENDCONTROLMARKER
    ensures i in {1, 6, 7, 15} && TextAt(home, c, i) == ENDCONTROLMARKER
  {
    if i < 6 {
      HeadLines(home, c);
    } else if i < 10 {
      LookLines(home, c);
    } else if i < 16 {
      FontLines(home, c);
    } else {
      assert Ranged(c.kind) && i < 19 by { HeadLines(home, c); }
      RangeLines(home, c);
    }
  }

  // Reading one control.

  function BoundFont(f: Font): FontVars {
    FontVars(Some(f.size), Some(f.family), Some(f.style), Some(f.weight), Some(f.underlined), Some(f.face))
  }

  lemma ReadFontBack(home: Home, c: Control, vars: FontVars)
    requires WellFormed(home, c)
    ensures ReadFont(BodyLines(home, c), vars) == BoundFont(c.font.(face := TextAt(home, c, 15)))
  {
    FontLines(home, c);
    AtoiRepr(c.font.size);
    AtoiRepr(c.font.family);
    AtoiRepr(c.font.style);
    AtoiRepr(c.font.weight);
    AtoiRepr(c.font.underlined);
  }

  lemma ReadRangeBack(home: Home, c: Control)
    requires WellFormed(home, c)
    ensures ReadRange(c.kind, BodyLines(home, c)) == Some(if ReadsRange(c.kind) then c.range else None)
  {
    if ReadsRange(c.kind) {
      RangeLines(home, c);
      AtoiRepr(c.range.value.min);
      AtoiRepr(c.range.value.max);
      AtoiRepr(c.range.value.dir);
    }
  }

  /** The lines of one control, whatever its texts, give that control or fail on its image path. */
  lemma ReadOneBack(home: Home, c: Control, vars: FontVars)
    requires WellFormed(home, c)
    ensures Readable(home, c) ==>
              ReadOne(home, BodyLines(home, c), vars) == Some((Restored(home, c), BoundFont(Restored(home, c).font)))
    ensures ReadLabel(home, c.kind, TextAt(home, c, 1)).None? ==> ReadOne(home, BodyLines(home, c), vars).None?
  {
    ReadHeadBack(home, c);
    ReadLookBack(home, c);
    ReadFontBack(home, c, vars);
    ReadRangeBack(home, c);
  }

  lemma ReadHeadBack(home: Home, c: Control)
    requires WellFormed(home, c)
    ensures var b := BodyLines(home, c);
            && IntField(b, 0) == Some(c.kind) && TextField(b, 1) == Some(TextAt(home, c, 1))
            && IntField(b, 2) == Some(c.x) && IntField(b, 3) == Some(c.y)
            && IntField(b, 4) == Some(c.width) && IntField(b, 5) == Some(c.height)
  {
    HeadLines(home, c);
    AtoiRepr(c.kind);
    AtoiRepr(c.x);
    AtoiRepr(c.y);
    AtoiRepr(c.width);
    AtoiRepr(c.height);
  }

  lemma ReadLookBack(home: Home, c: Control)
    requires WellFormed(home, c)
    ensures var b := BodyLines(home, c);
            && TextField(b, 6) == Some(TextAt(home, c, 6)) && TextField(b, 7) == Some(TextAt(home, c, 7))
            && TextField(b, 8).Some? && ParseColour(TextField(b, 8).value) == c.back
            && TextField(b, 9).Some?
            && ParseColour(TextField(b, 9).value) == if c.fore.NotOk? then Rgb(0, 0, 0) else c.fore
  {
    LookLines(home, c);
    ColourInert(c.back);
    ColourInert(c.fore);
  }

  /** Too few lines raise an exception. */
  lemma ReadShort(home: Home, params: seq<string>, vars: FontVars)
    requires |params| <= 9
    ensures ReadOne(home, params, vars).None?
  {}

  // Reading a list.

  lemma {:induction false} MarkersAfter(list: seq<string>)
    requires FirstMarker(list) < |list|
    ensures Markers(list) == 1 + Markers(list[FirstMarker(list) + 1..])
  {
    if list[0] != ENDCONTROLMARKER {
      MarkersAfter(list[1..]);
      assert list[1..][FirstMarker(list[1..]) + 1..] == list[FirstMarker(list) + 1..];
    }
  }

  /** A list that starts with too few lines before its first marker cannot be read. */
  lemma ReadShortList(home: Home, list: seq<string>, vars: FontVars, read: seq<Control>)
    requires FirstMarker(list) < |list| && FirstMarker(list) <= 9
    ensures ReadAll(home, list, Markers(list), vars, read).None?
  {
    MarkersAfter(list);
    ReadShort(home, list[..FirstMarker(list)], vars);
  }

  lemma CutList(b: seq<string>, rest: seq<string>)
    ensures var list := b + [ENDCONTROLMARKER] + rest;
            list[..|b|] == b && list[|b| + 1..] == rest && list[|b|] == ENDCONTROLMARKER && FirstMarker(list) <= |b|
  {}

  lemma TextLines(home: Home, c: Control)
    requires WellFormed(home, c)
    ensures |BodyLines(home, c)| >= 16
    ensures forall i | i in {1, 6, 7, 15} :: BodyLines(home, c)[i] == TextAt(home, c, i)
  {
    HeadLines(home, c);
    LookLines(home, c);
    FontLines(home, c);
  }

  lemma FirstMarkerBehind(home: Home, c: Control, rest: seq<string>)
    requires WellFormed(home, c) && Readable(home, c)
    ensures FirstMarker(BodyLines(home, c) + [ENDCONTROLMARKER] + rest) == |BodyLines(home, c)|
  {
    var b := BodyLines(home, c);
    var list := b + [ENDCONTROLMARKER] + rest;
    CutList(b, rest);
    var m := FirstMarker(list);
    if m < |b| {
      assert list[m] == b[m];
      MarkerLines(home, c, m);
    }
  }

  lemma ReadNext(home: Home, c: Control, rest: seq<string>, vars: FontVars, read: seq<Control>, list: seq<string>)
    requires WellFormed(home, c) && Readable(home, c) && list == BodyLines(home, c) + [ENDCONTROLMARKER] + rest
    ensures ReadAll(home, list, Markers(list), vars, read)
         == ReadAll(home, rest, Markers(rest), BoundFont(Restored(home, c).font), read + [Restored(home, c)])
  {
    FirstMarkerBehind(home, c, rest);
    CutList(BodyLines(home, c), rest);
    MarkersAfter(list);
    ReadOneBack(home, c, vars);
  }

  /** Without an end marker in its texts, a control that is not readable has an image path that fails. */
  lemma ReadStopsLate(home: Home, c: Control, vars: FontVars)
    requires WellFormed(home, c) && !Readable(home, c) && ENDCONTROLMARKER !in BodyLines(home, c)
    ensures ReadOne(home, BodyLines(home, c), vars).None?
  {
    TextLines(home, c);
    ReadOneBack(home, c, vars);
  }

  /** A text that looks like the marker makes reading fail in this round or the next. */
  lemma ReadStopsEarly(home: Home, c: Control, rest: seq<string>, vars: FontVars, read: seq<Control>, list: seq<string>)
    requires WellFormed(home, c) && list == BodyLines(home, c) + [ENDCONTROLMARKER] + rest
    requires FirstMarker(list) < |BodyLines(home, c)|
    ensures ReadAll(home, list, Markers(list), vars, read).None?
  {
    var m := FirstMarker(list);
    assert list[m] == BodyLines(home, c)[m];
    MarkerLines(home, c, m);
    if m == 15 {
      SecondMarker(home, c, rest);
      ReadStopsNext(home, list, vars, read);
    } else {
      ReadShortList(home, list, vars, read);
    }
  }

  /** Whatever the first round gives, the second fails. */
  lemma ReadStopsNext(home: Home, list: seq<string>, vars: FontVars, read: seq<Control>)
    requires FirstMarker(list) < |list|
    requires var next := list[FirstMarker(list) + 1..]; FirstMarker(next) < |next| && FirstMarker(next) <= 9
    ensures ReadAll(home, list, Markers(list), vars, read).None?
  {
    var next := list[FirstMarker(list) + 1..];
    MarkersAfter(list);
    var vars', read' := ReadAllOn(home, list, Markers(next), vars, read);
    ReadShortList(home, next, vars', read');
  }

  /** Reading fails or goes on behind the first marker. */
  lemma ReadAllOn(home: Home, list: seq<string>, count: nat, vars: FontVars, read: seq<Control>)
      returns (vars': FontVars, read': seq<Control>)
    requires FirstMarker(list) < |list|
    ensures var all, rest := ReadAll(home, list, 1 + count, vars, read), list[FirstMarker(list) + 1..];
            all.None? || all == ReadAll(home, rest, count, vars', read')
  {
    var one := ReadOne(home, list[..FirstMarker(list)], vars);
    if one.None? {
      vars', read' := vars, read;
    } else {
      vars', read' := one.value.1, read + [one.value.0];
    }
  }

  lemma ReadStops(home: Home, c: Control, rest: seq<string>, vars: FontVars, read: seq<Control>, list: seq<string>)
    requires WellFormed(home, c) && !Readable(home, c) && list == BodyLines(home, c) + [ENDCONTROLMARKER] + rest
    ensures ReadAll(home, list, Markers(list), vars, read).None?
  {
    var b := BodyLines(home, c);
    CutList(b, rest);
    if FirstMarker(list) == |b| {
      assert forall i | 0 <= i < |b| :: list[i] == b[i];
      MarkersAfter(list);
      ReadStopsLate(home, c, vars);
    } else {
      ReadStopsEarly(home, c, rest, vars, read, list);
    }
  }

  /** Behind the font face at most the range is left before the marker of the control. */
  lemma SecondMarker(home: Home, c: Control, rest: seq<string>)
    requires WellFormed(home, c)
    ensures var next := (BodyLines(home, c) + [ENDCONTROLMARKER] + rest)[16..];
            FirstMarker(next) < |next| && FirstMarker(next) <= 3
  {
    HeadLines(home, c);
    var b := BodyLines(home, c);
    var next := (b + [ENDCONTROLMARKER] + rest)[16..];
    assert next[|b| - 16] == ENDCONTROLMARKER;
  }

  lemma LinesOfFirst(home: Home, cs: seq<Control>)
    requires cs != [] && forall i | 0 <= i < |cs| :: WellFormed(home, cs[i])
    ensures LinesOf(home, cs) == BodyLines(home, cs[0]) + [ENDCONTROLMARKER] + LinesOf(home, cs[1..])
  {
    var marker := ENDCONTROLMARKER;
    assert AllTexts(home, cs) == (Body(home, cs[0]) + [marker]) + AllTexts(home, cs[1..]);
    ChompedParts(Body(home, cs[0]), marker, AllTexts(home, cs[1..]));
    MarkerInert(marker);
  }

  lemma MarkerInert(m: string)
    requires m == ENDCONTROLMARKER
    ensures Chomped(m) == m
  {
    Plain(m);
  }

  lemma Plain(s: string)
    requires forall i | 0 <= i < |s| :: s[i] != '\n'
    ensures Chomped(s) == s
  {
    ChompedSame(s);
  }

  lemma ChompedParts(a: seq<string>, m: string, t: seq<string>)
    ensures AllChomped((a + [m]) + t) == AllChomped(a) + [Chomped(m)] + AllChomped(t)
  {}

  predicate AllReadable(home: Home, cs: seq<Control>)
    requires forall i | 0 <= i < |cs| :: WellFormed(home, cs[i])
  {
    forall i | 0 <= i < |cs| :: Readable(home, cs[i])
  }

  /** Every control of a readable list comes back in its place with no line left over; any other list fails to read. */
  lemma {:induction false} ReadBack(home: Home, cs: seq<Control>, vars: FontVars, read: seq<Control>)
    requires forall i | 0 <= i < |cs| :: WellFormed(home, cs[i])
    ensures ReadAll(home, LinesOf(home, cs), Markers(LinesOf(home, cs)), vars, read)
            == if AllReadable(home, cs) then Some((read + AllRestored(home, cs), [])) else None
    decreases |cs|
  {
    if cs == [] {
      assert read + [] == read;
    } else {
      var c, rest := cs[0], LinesOf(home, cs[1..]);
      LinesOfFirst(home, cs);
      if Readable(home, c) {
        ReadNext(home, c, rest, vars, read, LinesOf(home, cs));
        ReadBack(home, cs[1..], BoundFont(Restored(home, c).font), read + [Restored(home, c)]);
        ReadableFirst(home, cs);
        if AllReadable(home, cs) {
          assert read + [Restored(home, c)] + AllRestored(home, cs[1..]) == read + AllRestored(home, cs);
        }
      } else {
        ReadStops(home, c, rest, vars, read, LinesOf(home, cs));
      }
    }
  }

  lemma ReadableFirst(home: Home, cs: seq<Control>)
    requires cs != [] && (forall i | 0 <= i < |cs| :: WellFormed(home, cs[i]))
    ensures AllReadable(home, cs) <==> Readable(home, cs[0]) && AllReadable(home, cs[1..])
  {
    if !AllReadable(home, cs) && Readable(home, cs[0]) {
      var i :| 0 <= i < |cs| && !Readable(home, cs[i]);
      assert cs[1..][i - 1] == cs[i];
    }
  }

  lemma ChompedLineEnds(t: seq<string>)
    ensures AllChomped(WithLineEnds(t)) == AllChomped(t)
  {
    forall i | 0 <= i < |t| ensures AllChomped(WithLineEnds(t))[i] == AllChomped(t)[i] { ChompedLine(t[i]); }
  }

  /** Controls duplicated through a container: written, stripped of their line ends and read back. */
  method Duplicate(home: Home, cs: seq<Control>) returns (r: Option<seq<Control>>)
    requires forall i | 0 <= i < |cs| :: WellFormed(home, cs[i])
    ensures r == if AllReadable(home, cs) then Some(AllRestored(home, cs)) else None
  {
    var container := new Container();
    container.WriteControls(home, cs);
    container.Chomp();
    assert [] + WithLineEnds(AllTexts(home, cs)) == WithLineEnds(AllTexts(home, cs));
    ChompedLineEnds(AllTexts(home, cs));
    assert container.list == LinesOf(home, cs);
    ReadBack(home, cs, UNBOUND, []);
    r := ReadControls(home, container);
    if AllReadable(home, cs) { assert [] + AllRestored(home, cs) == AllRestored(home, cs); }
  }

  // Which controls come back as they were.

  /** No line end in a text field. */
  predicate OneLine(c: Control) {
    '\n' !in c.caption && '\n' !in c.sendSymbol && '\n' !in c.receiveSymbol && '\n' !in c.font.face
  }

  /** A control that is not an image comes back field by field exactly when it has no line end, a text colour and no
      spin-button range. */
  lemma RestoredSame(home: Home, c: Control)
    requires WellFormed(home, c) && Readable(home, c) && c.kind != MIMAGETYPE
    ensures Restored(home, c) == c <==> OneLine(c) && c.fore.Rgb? && c.kind != MSPINBUTTONTYPE
  {
    ChompedSame(c.caption);
    ChompedSame(c.sendSymbol);
    ChompedSame(c.receiveSymbol);
    ChompedSame(c.font.face);
  }

  lemma RelativeOneLine(dir: string, file: string)
    requires Directory(dir)
    requires file != "" && file[0] == '/' && Clean(file) && '\n' !in file
    ensures !Diverges(RelativeRaw(dir, file))
    ensures Chomped(MakeRelativePath(dir, file)) == MakeRelativePath(dir, file) != ENDCONTROLMARKER
  {
    RelativeForm(dir, file);
    PlainText(MakeRelativePath(dir, file), file, |dir|);
  }

  lemma PlainText(text: string, file: string, k: nat)
    requires file != "" && file[0] == '/' && '\n' !in file
             && (text == file || (k <= |file| && text == "./" + file[k..]))
    ensures Chomped(text) == text != ENDCONTROLMARKER
  {
    assert text[0] == '.' || text[0] == '/';
    ChompedSame(text);
  }

  /** The path of an image, through the file and back. */
  lemma ImageLabel(home: Home, file: string)
    requires Directory(home.dir)
    requires file != "" && file[0] == '/' && Clean(file) && '\n' !in file && file in home.images
    ensures !Diverges(RelativeRaw(home.dir, file))
    ensures var text := Chomped(MakeRelativePath(home.dir, file));
            && text != ENDCONTROLMARKER
            && (ReadLabel(home, MIMAGETYPE, text) == Some(file) <==> home.dir != "/")
  {
    RelativeOneLine(home.dir, file);
    RelativeThenAbsolute(home.dir, file);
  }

  /** An image of a clean absolute path comes back too, unless the panel lies in the root directory. */
  lemma RestoredImage(home: Home, c: Control)
    requires WellFormed(home, c) && c.kind == MIMAGETYPE && OneLine(c) && c.fore.Rgb? && c.caption in home.images
    requires Directory(home.dir)
    requires c.caption != "" && c.caption[0] == '/' && Clean(c.caption)
    requires forall i | i in {6, 7, 15} :: TextAt(home, c, i) != ENDCONTROLMARKER
    ensures (Readable(home, c) && Restored(home, c) == c) <==> home.dir != "/"
  {
    assert TextAt(home, c, 1) == Chomped(MakeRelativePath(home.dir, c.caption));
    ImageLabel(home, c.caption);
    if Readable(home, c) { RestoredTexts(home, c); }
  }

  lemma RestoredTexts(home: Home, c: Control)
    requires WellFormed(home, c) && Readable(home, c) && OneLine(c) && c.fore.Rgb? && c.kind != MSPINBUTTONTYPE
    ensures Restored(home, c) == c.(caption := Restored(home, c).caption)
  {
    ChompedSame(c.sendSymbol);
    ChompedSame(c.receiveSymbol);
    ChompedSame(c.font.face);
  }
}
