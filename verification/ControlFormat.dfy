/** The format of GrIPD's control lists: which line holds what, and how a file of it looks. */
module ControlFormat {
  import opened Wrappers
  import opened Numerals
  import opened Controls
  import opened ControlsRoundTrip

  /** The types with a range, the one that is written with a range but read without, and the type of images. */
  lemma Kinds(kind: int)
    ensures Known(kind) <==> 0 <= kind <= 14
    ensures ReadsRange(kind) <==> kind in {2, 3, 6, 7}
    ensures Ranged(kind) <==> kind in {2, 3, 6, 7, 10}
    ensures MIMAGETYPE == 14
  {}

  /** Where each field of a control stands among its lines. */
  lemma Lines(home: Home, c: Control)
    requires WellFormed(home, c)
    ensures var b := Body(home, c);
            && b[0] == Repr(c.kind) && b[1] == LabelText(home, c) && b[2] == Repr(c.x) && b[3] == Repr(c.y)
            && b[4] == Repr(c.width) && b[5] == Repr(c.height) && b[6] == c.sendSymbol && b[7] == c.receiveSymbol
    ensures var b, f := Body(home, c), c.font;
            && b[8] == BackText(c.back) && b[9] == ForeText(c.fore)
            && b[10] == Repr(f.size) && b[11] == Repr(f.family) && b[12] == Repr(f.style) && b[13] == Repr(f.weight)
            && b[14] == Repr(f.underlined) && b[15] == f.face
    ensures c.range.Some? ==>
              var b, r := Body(home, c), c.range.value;
              b[16] == Repr(r.min) && b[17] == Repr(r.max) && b[18] == Repr(r.dir)
  {
    BodyParts(home, c);
    assert Body(home, c)[..6] == HeadTexts(home, c) && Body(home, c)[6..10] == LookTexts(c);
    assert Body(home, c)[10..16] == FontTexts(c.font) && Body(home, c)[16..] == RangeTexts(c.range);
  }

  /** Numbers are written in decimal. */
  lemma Decimal()
    ensures Repr(7) == "7" && Repr(120) == "120" && Repr(-19) == "-19"
    ensures Atoi("+19") == Some(19) && Atoi("").None? && Atoi("1x").None?
  {
    Hundred();
    Nineteen();
  }

  lemma Hundred()
    ensures Digits(120) == "120"
  {
    assert Digits(12) == "12";
  }

  lemma Nineteen()
    ensures Digits(19) == "19" && Atoi("+19") == Some(19)
  {
    ValueDigits(19);
    assert "+19"[1..] == "19";
  }

  lemma Hexadecimal()
    ensures HexString(Rgb(255, 0, 26)) == "ff001a"
  {}

  /** Colours are written in lower-case hexadecimal, red first; missing ones as five and as six zeros. */
  lemma Colours()
    ensures BackText(Rgb(255, 0, 26)) == "#ff001a" == ForeText(Rgb(255, 0, 26))
    ensures BackText(NotOk) == "#00000" && ForeText(NotOk) == "#000000"
    ensures ParseColour("#ff001a") == Rgb(255, 0, 26)
  {
    Hexadecimal();
    ParseHexString(Rgb(255, 0, 26));
  }

  /** The line that ends a control. */
  lemma Marker(home: Home, c: Control)
    requires WellFormed(home, c)
    ensures Texts(home, c) == Body(home, c) + ["!END-CONTROL"]
  {}

  /** Fields that can be read up to and including line `i` of the font. */
  predicate FontReadable(params: seq<string>, i: nat)
    requires 10 <= i <= 15
  {
    (forall j | 10 <= j <= i && j <= 14 :: IntField(params, j).Some?) && (i == 15 ==> TextField(params, 15).Some?)
  }

  /** Reading a font stops at the first field that cannot be read; what was read before it is kept. */
  lemma FontStops(params: seq<string>, vars: FontVars)
    ensures var r := ReadFont(params, vars);
            && r.size == (if FontReadable(params, 10) then IntField(params, 10) else vars.size)
            && r.family == (if FontReadable(params, 11) then IntField(params, 11) else vars.family)
            && r.style == (if FontReadable(params, 12) then IntField(params, 12) else vars.style)
            && r.weight == (if FontReadable(params, 13) then IntField(params, 13) else vars.weight)
            && r.underlined == (if FontReadable(params, 14) then IntField(params, 14) else vars.underlined)
            && r.face == (if FontReadable(params, 15) then TextField(params, 15) else vars.face)
  {
    if IntField(params, 10).Some? && IntField(params, 11).Some? && IntField(params, 12).Some? {
      assert FontReadable(params, 12);
    }
  }
}
