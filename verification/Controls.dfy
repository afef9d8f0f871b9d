/** GrIPD's control list as text: writing controls line by line and reading them back. */
module Controls {
  import opened Wrappers
  import opened Paths
  import opened PathMeaning
  import opened Numerals

  const ENDCONTROLMARKER := "!END-CONTROL"

  // Control types that the reader or the writer treats in a special way.
  const MBUTTONTYPE := 0
  const MVSLIDERTYPE := 2
  const MHSLIDERTYPE := 3
  const MVGAUGETYPE := 6
  const MHGAUGETYPE := 7
  const MSPINBUTTONTYPE := 10
  const MIMAGETYPE := 14

  datatype Font = Font(size: int, family: int, style: int, weight: int, underlined: int, face: string)

  datatype Range = Range(min: int, max: int, dir: int)

  datatype Control = Control(
    kind: int, caption: string, x: int, y: int, width: int, height: int,
    sendSymbol: string, receiveSymbol: string, back: Colour, fore: Colour, font: Font, range: Option<Range>)

  /** Types that the reader makes a control of; graphs are not part of the model. */
  predicate Known(kind: int) { MBUTTONTYPE <= kind <= MIMAGETYPE }

  /** The directory of the control file, and the files that can be loaded as images. */
  datatype Home = Home(dir: string, images: set<string>)

  /** Types whose controls are sliders or inherit from them: their range is written. */
  predicate Ranged(kind: int) { ReadsRange(kind) || kind == MSPINBUTTONTYPE }

  /** Types whose range is read back. */
  predicate ReadsRange(kind: int) { kind in {MVSLIDERTYPE, MHSLIDERTYPE, MVGAUGETYPE, MHGAUGETYPE} }

  /** A control as the writer finds it, graphs aside; `home` is where its file lies. */
  predicate WellFormed(home: Home, c: Control) {
    && Known(c.kind)
    && (c.range.Some? <==> Ranged(c.kind))
    && c.back.Valid() && c.fore.Valid()
    && (c.kind == MIMAGETYPE ==> !Diverges(RelativeRaw(home.dir, c.caption)))
  }

  // Writing.

  /** The text written for the label: image files are made relative. */
  function LabelText(home: Home, c: Control): string
    requires WellFormed(home, c)
  {
    if c.kind == MIMAGETYPE then MakeRelativePath(home.dir, c.caption) else c.caption
  }

  function BackText(c: Colour): string
    requires c.Valid()
  {
    if c.Rgb? then "#" + HexString(c) else "#00000"
  }

  function ForeText(c: Colour): string
    requires c.Valid()
  {
    if c.Rgb? then "#" + HexString(c) else "#000000"
  }

  function HeadTexts(home: Home, c: Control): (t: seq<string>)
    requires WellFormed(home, c)
  {
    [Repr(c.kind), LabelText(home, c), Repr(c.x), Repr(c.y), Repr(c.width), Repr(c.height)]
  }

  function LookTexts(c: Control): (t: seq<string>)
    requires c.back.Valid() && c.fore.Valid()
  {
    [c.sendSymbol, c.receiveSymbol, BackText(c.back), ForeText(c.fore)]
  }

  function FontTexts(f: Font): (t: seq<string>) {
    [Repr(f.size), Repr(f.family), Repr(f.style), Repr(f.weight), Repr(f.underlined), f.face]
  }

  function RangeTexts(r: Option<Range>): (t: seq<string>) {
    if r.Some? then [Repr(r.value.min), Repr(r.value.max), Repr(r.value.dir)] else []
  }

  /** The texts written for a control before its end marker, in order, without their line ends. */
  function Body(home: Home, c: Control): (t: seq<string>)
    requires WellFormed(home, c)
    ensures |t| == if Ranged(c.kind) then 19 else 16
  {
    HeadTexts(home, c) + LookTexts(c) + FontTexts(c.font) + RangeTexts(c.range)
  }

  function Texts(home: Home, c: Control): (t: seq<string>)
    requires WellFormed(home, c)
  {
    Body(home, c) + [ENDCONTROLMARKER]
  }

  function AllTexts(home: Home, cs: seq<Control>): (t: seq<string>)
    requires forall i | 0 <= i < |cs| :: WellFormed(home, cs[i])
  {
    if cs == [] then [] else Texts(home, cs[0]) + AllTexts(home, cs[1..])
  }

  /** Each text with its line end. */
  function WithLineEnds(t: seq<string>): (l: seq<string>)
    ensures |l| == |t|
  {
    seq(|t|, i requires 0 <= i < |t| => t[i] + "\n")
  }

  /** `replace(s, "\n", "")`. */
  function Chomped(s: string): (r: string) {
    if s == "" then "" else (if s[0] == '\n' then "" else [s[0]]) + Chomped(s[1..])
  }

  function AllChomped(t: seq<string>): (l: seq<string>)
    ensures |l| == |t|
  {
    seq(|t|, i requires 0 <= i < |t| => Chomped(t[i]))
  }

  /** The file-like list that controls are written to. */
  class Container {
    var list: seq<string>

    constructor ()
      ensures list == []
    {
      list := [];
    }

    method Write(s: string)
      modifies this
      ensures list == old(list) + [s]
    {
      list := list + [s];
    }

    method Chomp()
      modifies this
      ensures list == AllChomped(old(list))
    {
      var i := 0;
      while i < |list|
        invariant 0 <= i <= |list| == |old(list)|
        invariant forall j | 0 <= j < i :: list[j] == Chomped(old(list)[j])
        invariant forall j | i <= j < |list| :: list[j] == old(list)[j]
      {
        list := list[i := Chomped(list[i])];
        i := i + 1;
      }
    }

    method WriteHead(home: Home, c: Control)
      requires WellFormed(home, c)
      modifies this
      ensures list == old(list) + WithLineEnds(HeadTexts(home, c))
    {
      Write(Repr(c.kind) + "\n");
      WriteLabel(home, c);
      Write(Repr(c.x) + "\n");
      Write(Repr(c.y) + "\n");
      Write(Repr(c.width) + "\n");
      Write(Repr(c.height) + "\n");
    }

    method WriteLabel(home: Home, c: Control)
      requires WellFormed(home, c)
      modifies this
      ensures list == old(list) + [LabelText(home, c) + "\n"]
    {
      if c.kind == MIMAGETYPE {
        var relative := ScrubPath(RelativeRaw(home.dir, c.caption));
        Write(relative + "\n");
      } else {
        Write(c.caption + "\n");
      }
    }

    method WriteLook(c: Control)
      requires c.back.Valid() && c.fore.Valid()
      modifies this
      ensures list == old(list) + WithLineEnds(LookTexts(c))
    {
      Write(c.sendSymbol + "\n");
      Write(c.receiveSymbol + "\n");
      WriteColour(c.back, "#00000\n", BackText(c.back));
      WriteColour(c.fore, "#000000\n", ForeText(c.fore));
    }

    method WriteColour(c: Colour, missing: string, ghost text: string)
      requires c.Valid() && (c.Rgb? ==> text == "#" + HexString(c)) && (c.NotOk? ==> missing == text + "\n")
      modifies this
      ensures list == old(list) + [text + "\n"]
    {
      if c.Rgb? {
        var hexString := BuildHexString(c);
        Write("#" + hexString + "\n");
      } else {
        Write(missing);
      }
    }

    method WriteFont(f: Font)
      modifies this
      ensures list == old(list) + WithLineEnds(FontTexts(f))
    {
      Write(Repr(f.size) + "\n");
      Write(Repr(f.family) + "\n");
      Write(Repr(f.style) + "\n");
      Write(Repr(f.weight) + "\n");
      Write(Repr(f.underlined) + "\n");
      Write(f.face + "\n");
    }

    method WriteRange(r: Range)
      modifies this
      ensures list == old(list) + WithLineEnds(RangeTexts(Some(r)))
    {
      Write(Repr(r.min) + "\n");
      Write(Repr(r.max) + "\n");
      Write(Repr(r.dir) + "\n");
    }

    /** Writes one control. */
    method WriteControl(home: Home, c: Control)
      requires WellFormed(home, c)
      modifies this
      ensures list == old(list) + WithLineEnds(Texts(home, c))
    {
      WriteHead(home, c);
      WriteLook(c);
      WriteFont(c.font);
      if Ranged(c.kind) {
        WriteRange(c.range.value);
      }
      assert WithLineEnds([]) == [];
      Write(ENDCONTROLMARKER + "\n");
      assert WithLineEnds([ENDCONTROLMARKER]) == [ENDCONTROLMARKER + "\n"];
      LineEndsParts(HeadTexts(home, c), LookTexts(c), FontTexts(c.font), RangeTexts(c.range), [ENDCONTROLMARKER],
        old(list));
    }

    method WriteControls(home: Home, cs: seq<Control>)
      requires forall i | 0 <= i < |cs| :: WellFormed(home, cs[i])
      modifies this
      ensures list == old(list) + WithLineEnds(AllTexts(home, cs))
    {
      var i := 0;
      while i < |cs|
        invariant 0 <= i <= |cs|
        invariant Written(home, list, cs[i..]) == Written(home, old(list), cs)
      {
        assert cs[i..][1..] == cs[i + 1..];
        WriteControl(home, cs[i]);
        i := i + 1;
      }
      WrittenTexts(home, old(list), cs);
    }
  }

  /** The list after writing the controls `cs` to it, one after the other. */
  ghost function Written(home: Home, list: seq<string>, cs: seq<Control>): seq<string>
    requires forall i | 0 <= i < |cs| :: WellFormed(home, cs[i])
    decreases |cs|
  {
    if cs == [] then list else Written(home, list + WithLineEnds(Texts(home, cs[0])), cs[1..])
  }

  lemma {:induction false} WrittenTexts(home: Home, list: seq<string>, cs: seq<Control>)
    requires forall i | 0 <= i < |cs| :: WellFormed(home, cs[i])
    ensures Written(home, list, cs) == list + WithLineEnds(AllTexts(home, cs))
    decreases |cs|
  {
    if cs == [] {
      assert list + WithLineEnds([]) == list;
    } else {
      WrittenTexts(home, list + WithLineEnds(Texts(home, cs[0])), cs[1..]);
      AppendTexts(list, Texts(home, cs[0]), AllTexts(home, cs[1..]));
    }
  }

  lemma AppendTexts(list: seq<string>, a: seq<string>, b: seq<string>)
    ensures list + WithLineEnds(a + b) == (list + WithLineEnds(a)) + WithLineEnds(b)
  {}

  lemma LineEndsParts(a: seq<string>, b: seq<string>, f: seq<string>, r: seq<string>, m: seq<string>, list: seq<string>)
    ensures list + WithLineEnds(a) + WithLineEnds(b) + WithLineEnds(f) + WithLineEnds(r) + WithLineEnds(m)
         == list + WithLineEnds(a + b + f + r + m)
  {
    AppendTexts(list, a, b);
    AppendTexts(list, a + b, f);
    AppendTexts(list, a + b + f, r);
    AppendTexts(list, a + b + f + r, m);
  }

  lemma {:induction false} ChompedConcat(a: string, b: string)
    ensures Chomped(a + b) == Chomped(a) + Chomped(b)
  {
    if a == "" {
      assert a + b == b;
    } else {
      assert (a + b)[1..] == a[1..] + b;
      ChompedConcat(a[1..], b);
    }
  }

  /** Removing line ends changes nothing exactly when there are none. */
  lemma {:induction false} ChompedSame(s: string)
    ensures |Chomped(s)| <= |s|
    ensures Chomped(s) == s <==> '\n' !in s
  {
    if s != "" {
      ChompedSame(s[1..]);
      if s[0] == '\n' { assert |Chomped(s)| < |s|; } else { assert s == [s[0]] + s[1..]; }
    }
  }

  lemma ChompedLine(s: string)
    ensures Chomped(s + "\n") == Chomped(s)
  {
    ChompedConcat(s, "\n");
    assert "\n"[1..] == "";
  }

  // Reading.

  /** The variables of the reading loop that keep their value when a font cannot be read. */
  datatype FontVars = FontVars(size: Option<int>, family: Option<int>, style: Option<int>, weight: Option<int>,
                               underlined: Option<int>, face: Option<string>)

  const UNBOUND := FontVars(None, None, None, None, None, None)

  function TextField(params: seq<string>, i: nat): Option<string> { if i < |params| then Some(params[i]) else None }

  function IntField(params: seq<string>, i: nat): Option<int> { if i < |params| then Atoi(params[i]) else None }

  /** Fields 10 to 15, in order, up to the first that cannot be read. */
  function ReadFont(params: seq<string>, vars: FontVars): (r: FontVars) {
    var size := IntField(params, 10);
    if size.None? then vars else
    var family := IntField(params, 11);
    if family.None? then vars.(size := size) else
    var style := IntField(params, 12);
    if style.None? then vars.(size := size, family := family) else
    var weight := IntField(params, 13);
    if weight.None? then vars.(size := size, family := family, style := style) else
    var underlined := IntField(params, 14);
    if underlined.None? then vars.(size := size, family := family, style := style, weight := weight) else
    var face := TextField(params, 15);
    FontVars(size, family, style, weight, underlined, if face.None? then vars.face else face)
  }

  function MakeFont(v: FontVars): Option<Font> {
    var size :- v.size;
    var family :- v.family;
    var style :- v.style;
    var weight :- v.weight;
    var underlined :- v.underlined;
    var face :- v.face;
    Some(Font(size, family, style, weight, underlined, face))
  }

  /** The label of a new control; None if there is no such control, or its image cannot be found or loaded. */
  function ReadLabel(home: Home, kind: int, text: string): Option<string> {
    if !Known(kind) then None
    else if kind != MIMAGETYPE then Some(text)
    else
      var raw :- AbsoluteRaw(home.dir, text);
      if Diverges(raw) then None
      else
        var path :- MakeAbsolutePath(home.dir, text);
        if path in home.images then Some(path) else None
  }

  function ReadRange(kind: int, params: seq<string>): Option<Option<Range>> {
    if !ReadsRange(kind) then Some(None)
    else
      var min :- IntField(params, 16);
      var max :- IntField(params, 17);
      var dir :- IntField(params, 18);
      Some(Some(Range(min, max, dir)))
  }

  /** One control from the lines before its end marker; None if reading raises an exception or does not end. */
  function ReadOne(home: Home, params: seq<string>, vars: FontVars): (r: Option<(Control, FontVars)>) {
    var kind :- IntField(params, 0);
    var text :- TextField(params, 1);
    var x :- IntField(params, 2);
    var y :- IntField(params, 3);
    var width :- IntField(params, 4);
    var height :- IntField(params, 5);
    var sendSymbol :- TextField(params, 6);
    var receiveSymbol :- TextField(params, 7);
    var back :- TextField(params, 8);
    var fore :- TextField(params, 9);
    var vars' := ReadFont(params, vars);
    var range :- ReadRange(kind, params);
    var caption :- ReadLabel(home, kind, text);
    var font :- MakeFont(vars');
    Some((Control(kind, caption, x, y, width, height, sendSymbol, receiveSymbol, ParseColour(back), ParseColour(fore),
      font, range), vars'))
  }

  /** The position of the first end marker, or the length of the list. */
  function FirstMarker(list: seq<string>): (m: nat)
    ensures m <= |list| && (m < |list| ==> list[m] == ENDCONTROLMARKER)
    ensures forall i | 0 <= i < m :: list[i] != ENDCONTROLMARKER
  {
    if list == [] || list[0] == ENDCONTROLMARKER then 0 else 1 + FirstMarker(list[1..])
  }

  function Markers(list: seq<string>): (n: nat) {
    if list == [] then 0 else (if list[0] == ENDCONTROLMARKER then 1 else 0) + Markers(list[1..])
  }

  /** `count` rounds of reading after the controls `read`: all controls, and the lines left over. */
  function ReadAll(home: Home, list: seq<string>, count: nat, vars: FontVars,
      read: seq<Control>): (r: Option<(seq<Control>, seq<string>)>)
    decreases count
  {
    if count == 0 then Some((read, list))
    else
      var m := FirstMarker(list);
      if m == |list| then None
      else
        var one :- ReadOne(home, list[..m], vars);
        ReadAll(home, list[m + 1..], count - 1, one.1, read + [one.0])
  }

  /** Reads as many controls as there are end markers, deleting the lines from the list. */
  method ReadControls(home: Home, container: Container) returns (r: Option<seq<Control>>)
    modifies container
    ensures var spec := ReadAll(home, old(container.list), Markers(old(container.list)), UNBOUND, []);
            && (spec.None? ==> r.None?)
            && (spec.Some? ==> r == Some(spec.value.0) && container.list == spec.value.1)
  {
    var newList: seq<Control>, vars, count := [], UNBOUND, Markers(container.list);
    var i := 0;
    while i < count
      invariant 0 <= i <= count
      invariant ReadAll(home, container.list, count - i, vars, newList)
                == ReadAll(home, old(container.list), count, UNBOUND, [])
    {
      var m := FirstMarker(container.list);
      if m == |container.list| {
        return None;
      }
      var one := ReadOne(home, container.list[..m], vars);
      if one.None? {
        return None;
      }
      newList, vars := newList + [one.value.0], one.value.1;
      container.list := container.list[m + 1..];
      i := i + 1;
    }
    return Some(newList);
  }
}
