/**
 GrIPD's control files. Saving writes the same lines as duplicating does, but opening reads the file line by
 line, so a line end inside a text is one, and shifts all that follows.
 */
module ControlFiles {
  import opened Wrappers
  import opened Strings
  import opened Paths
  import opened PathMeaning
  import opened Numerals
  import opened Controls
  import opened ControlsRoundTrip

  /** All that was written, one piece after another. */
  function Content(written: seq<string>): string {
    if written == [] then "" else written[0] + Content(written[1..])
  }

  /** `readlines`: the lines of a text, each with its line end. */
  function ReadLines(s: string): (lines: seq<string>) {
    if s == "" then []
    else
      var rest := ReadLines(s[1..]);
      if s[0] == '\n' || rest == [] then [[s[0]]] + rest else [[s[0]] + rest[0]] + rest[1..]
  }

  /** The lines of a file that texts were written to, without their line ends. */
  function FileLines(texts: seq<string>): (lines: seq<string>) {
    AllChomped(ReadLines(Content(WithLineEnds(texts))))
  }

  predicate Plain(s: string) { '\n' !in s }

  predicate AllPlain(t: seq<string>) { forall i | 0 <= i < |t| :: Plain(t[i]) }

  /** The number of line ends inside a text. */
  function LineEnds(s: string): nat { if s == "" then 0 else (if s[0] == '\n' then 1 else 0) + LineEnds(s[1..]) }

  function AllLineEnds(t: seq<string>): nat { if t == [] then 0 else LineEnds(t[0]) + AllLineEnds(t[1..]) }

  lemma {:induction false} LineEndsPlain(s: string)
    ensures LineEnds(s) == 0 <==> Plain(s)
  {
    if s != "" {
      LineEndsPlain(s[1..]);
      assert s == [s[0]] + s[1..];
    }
  }

  lemma {:induction false} AllLineEndsPlain(t: seq<string>)
    ensures AllLineEnds(t) == 0 <==> AllPlain(t)
  {
    if t != [] {
      LineEndsPlain(t[0]);
      AllLineEndsPlain(t[1..]);
      assert AllPlain(t) <==> Plain(t[0]) && AllPlain(t[1..]) by {
        assert t == [t[0]] + t[1..];
        if AllPlain(t) { assert forall i | 0 <= i < |t| - 1 :: t[1..][i] == t[i + 1]; }
      }
    }
  }

  /** The first line of a text that ends in a line end there. */
  lemma {:induction false} FirstLine(x: string, s: string)
    ensures Plain(x) ==> ReadLines(x + "\n" + s) == [x + "\n"] + ReadLines(s)
    ensures |ReadLines(x + "\n" + s)| == 1 + LineEnds(x) + |ReadLines(s)|
  {
    var whole := x + "\n" + s;
    if x == "" {
      assert whole[1..] == s && [whole[0]] == x + "\n";
    } else {
      assert whole[1..] == x[1..] + "\n" + s;
      FirstLine(x[1..], s);
      if Plain(x) { assert [x[0]] + (x[1..] + "\n") == x + "\n"; }
    }
  }

  lemma {:induction false} LinesBehind(x: string, s: string)
    ensures 1 + LineEnds(x) <= |ReadLines(x + "\n" + s)|
    ensures ReadLines(x + "\n" + s)[1 + LineEnds(x)..] == ReadLines(s)
  {
    FirstLine(x, s);
    if x == "" {
      assert (x + "\n" + s)[1..] == s;
    } else {
      LinesBehind(x[1..], s);
      assert (x + "\n" + s)[1..] == x[1..] + "\n" + s;
      DropLines([x[0]], ReadLines(x[1..] + "\n" + s), 1 + LineEnds(x[1..]));
    }
  }

  lemma DropLines(c: string, rest: seq<string>, k: nat)
    requires 1 <= k <= |rest|
    ensures ([c] + rest)[1 + k..] == rest[k..] == ([c + rest[0]] + rest[1..])[k..]
  {}

  /** A line of a text comes back as it is; a text with line ends comes back as several lines. */
  lemma {:induction false} LinesOfTexts(t: seq<string>)
    ensures |FileLines(t)| == |t| + AllLineEnds(t)
    ensures AllPlain(t) ==> FileLines(t) == AllChomped(t)
  {
    var written := WithLineEnds(t);
    if t != [] {
      var rest := Content(written[1..]);
      assert written[1..] == WithLineEnds(t[1..]);
      LinesOfTexts(t[1..]);
      FirstLine(t[0], rest);
      assert Content(written) == t[0] + "\n" + rest;
      if AllPlain(t) { FirstChomped(t, ReadLines(rest)); }
    }
  }

  lemma FirstChomped(t: seq<string>, lines: seq<string>)
    requires t != [] && AllChomped(lines) == AllChomped(t[1..])
    ensures AllChomped([t[0] + "\n"] + lines) == AllChomped(t)
  {
    ChompedLine(t[0]);
    var a, b := AllChomped([t[0] + "\n"] + lines), AllChomped(t);
    forall i | 0 <= i < |t| ensures a[i] == b[i] {
      if i > 0 { assert AllChomped(lines)[i - 1] == AllChomped(t[1..])[i - 1]; }
    }
  }

  /** A file gives the lines that a container gives exactly when no text has a line end. */
  lemma FileLinesIff(t: seq<string>)
    ensures FileLines(t) == AllChomped(t) <==> AllPlain(t)
  {
    LinesOfTexts(t);
    AllLineEndsPlain(t);
  }

  // What is read from lines has no line end.

  predicate OneLineFont(vars: FontVars) { vars.face.Some? ==> Plain(vars.face.value) }

  lemma {:induction false} SplitPlain(s: string)
    requires Plain(s)
    ensures AllPlain(Split(s))
  {
    if s != "" { SplitPlain(s[1..]); }
  }

  lemma {:induction false} ClimbPlain(done: seq<string>, todo: seq<string>)
    requires |done| > 0 && AllPlain(done) && AllPlain(todo)
    ensures AllPlain(Climb(done, todo))
    decreases |todo|
  {
    if |todo| > 1 {
      if todo[0] != ".." { ClimbPlain(done + [todo[0]], todo[1..]); }
      else if |done| >= 2 { ClimbPlain(done[..|done| - 1], todo[1..]); }
    }
  }

  lemma {:induction false} KeepPlain(todo: seq<string>)
    requires AllPlain(todo)
    ensures AllPlain(Keep(todo))
  {
    if |todo| > 1 { KeepPlain(todo[1..]); }
  }

  lemma {:induction false} JoinPlain(segs: seq<string>)
    requires |segs| > 0 && AllPlain(segs)
    ensures Plain(Join(segs))
  {
    if |segs| > 1 { JoinPlain(segs[1..]); }
  }

  lemma {:induction false} SqueezePlain(s: string)
    requires Plain(s)
    ensures Plain(Squeeze(s))
  {
    if |s| >= 2 { SqueezePlain(if s[0] == '/' && s[1] == '/' then s[2..] else s[1..]); }
  }

  lemma ScrubbedPlain(path: string)
    requires Plain(path)
    ensures Plain(Scrubbed(path))
  {
    var segs := Split(path);
    SplitPlain(path);
    ClimbPlain([segs[0]], segs[1..]);
    var up := Climbed(segs);
    KeepPlain(up[1..]);
    JoinPlain(DropHere(up));
    SqueezePlain(Join(DropHere(up)));
  }

  lemma LabelPlain(home: Home, kind: int, text: string)
    requires Plain(home.dir) && Plain(text) && ReadLabel(home, kind, text).Some?
    ensures Plain(ReadLabel(home, kind, text).value)
  {
    if kind == MIMAGETYPE { ScrubbedPlain(AbsoluteRaw(home.dir, text).value); }
  }

  /** Where the texts of a control come from. */
  ghost predicate TextsFrom(home: Home, params: seq<string>, vars: FontVars, c: Control, vars': FontVars) {
    && |params| > 7 && c.sendSymbol == params[6] && c.receiveSymbol == params[7]
    && ReadLabel(home, c.kind, params[1]) == Some(c.caption)
    && vars' == ReadFont(params, vars) && vars'.face == Some(c.font.face)
  }

  lemma ReadOneTexts(home: Home, params: seq<string>, vars: FontVars)
    ensures var one := ReadOne(home, params, vars);
            one.Some? ==> TextsFrom(home, params, vars, one.value.0, one.value.1)
  {}

  lemma TextsFromPlain(home: Home, params: seq<string>, vars: FontVars, c: Control, vars': FontVars)
    requires Plain(home.dir) && AllPlain(params) && OneLineFont(vars) && TextsFrom(home, params, vars, c, vars')
    ensures OneLine(c) && OneLineFont(vars')
  {
    ReadFontPlain(params, vars);
    LabelPlain(home, c.kind, params[1]);
  }

  lemma ReadFontPlain(params: seq<string>, vars: FontVars)
    requires AllPlain(params) && OneLineFont(vars)
    ensures OneLineFont(ReadFont(params, vars))
  {}

  predicate AllOneLine(cs: seq<Control>) { forall i | 0 <= i < |cs| :: OneLine(cs[i]) }

  predicate GivesOneLine(r: Option<(seq<Control>, seq<string>)>) { r.Some? ==> AllOneLine(r.value.0) }

  /** All controls read are without line ends; the quantifier over the one value `count` keeps `ReadAll` folded. */
  ghost predicate ReadsOneLine(home: Home, list: seq<string>, count: nat, vars: FontVars, read: seq<Control>) {
    forall k: nat | k == count :: GivesOneLine(ReadAll(home, list, k, vars, read))
  }

  lemma ReadOnPlain(home: Home, list: seq<string>, count: nat, vars: FontVars, read: seq<Control>)
      returns (vars': FontVars, read': seq<Control>)
    requires Plain(home.dir) && AllPlain(list) && OneLineFont(vars) && AllOneLine(read) && FirstMarker(list) < |list|
    ensures OneLineFont(vars') && AllOneLine(read')
    ensures ReadsOneLine(home, list[FirstMarker(list) + 1..], count, vars', read')
        ==> ReadsOneLine(home, list, 1 + count, vars, read)
  {
    var params := list[..FirstMarker(list)];
    ReadOneTexts(home, params, vars);
    var one := ReadOne(home, params, vars);
    if one.None? {
      vars', read' := vars, read;
    } else {
      vars', read' := one.value.1, read + [one.value.0];
      TextsFromPlain(home, params, vars, one.value.0, one.value.1);
    }
  }

  lemma ReadAllEnd(home: Home, list: seq<string>, count: nat, vars: FontVars, read: seq<Control>)
    requires AllOneLine(read) && (count == 0 || FirstMarker(list) == |list|)
    ensures ReadsOneLine(home, list, count, vars, read)
  {}

  lemma {:induction false} ReadAllPlain(home: Home, list: seq<string>, count: nat, vars: FontVars, read: seq<Control>)
    requires Plain(home.dir) && AllPlain(list) && OneLineFont(vars) && AllOneLine(read)
    ensures ReadsOneLine(home, list, count, vars, read)
    decreases count
  {
    if count == 0 || FirstMarker(list) == |list| {
      ReadAllEnd(home, list, count, vars, read);
    } else {
      var vars', read' := ReadOnPlain(home, list, count - 1, vars, read);
      ReadAllPlain(home, list[FirstMarker(list) + 1..], count - 1, vars', read');
    }
  }

  lemma ChompedPlain(t: seq<string>)
    ensures AllPlain(AllChomped(t))
  {
    forall i | 0 <= i < |t| ensures Plain(Chomped(t[i])) { ChompedTwice(t[i]); }
  }

  lemma {:induction false} ChompedTwice(s: string)
    ensures Plain(Chomped(s))
  {
    if s != "" { ChompedTwice(s[1..]); }
  }

  /** Controls without line ends are written as texts without line ends. */
  lemma {:induction false} TextsPlain(home: Home, cs: seq<Control>)
    requires AllOneLine(cs) && forall i | 0 <= i < |cs| :: WellFormed(home, cs[i])
    ensures AllPlain(AllTexts(home, cs))
  {
    if cs != [] {
      TextsPlain(home, cs[1..]);
      BodyPlain(home, cs[0]);
      BothPlain(Body(home, cs[0]), [ENDCONTROLMARKER]);
      BothPlain(Texts(home, cs[0]), AllTexts(home, cs[1..]));
    }
  }

  lemma BothPlain(a: seq<string>, b: seq<string>)
    requires AllPlain(a) && AllPlain(b)
    ensures AllPlain(a + b)
  {}

  lemma BodyPlain(home: Home, c: Control)
    requires WellFormed(home, c) && OneLine(c)
    ensures AllPlain(Body(home, c))
  {
    var head, look, font, range := HeadTexts(home, c), LookTexts(c), FontTexts(c.font), RangeTexts(c.range);
    HeadPlain(home, c);
    LookPlain(c);
    FontPlain(c.font, c.range);
    BothPlain(head, look);
    BothPlain(head + look, font);
    BothPlain(head + look + font, range);
  }

  lemma FontPlain(f: Font, r: Option<Range>)
    requires Plain(f.face)
    ensures AllPlain(FontTexts(f)) && AllPlain(RangeTexts(r))
  {}

  lemma HeadPlain(home: Home, c: Control)
    requires WellFormed(home, c) && OneLine(c)
    ensures AllPlain(HeadTexts(home, c))
  {
    if c.kind == MIMAGETYPE { ScrubbedPlain(RelativeRaw(home.dir, c.caption)); }
  }

  lemma LookPlain(c: Control)
    requires c.back.Valid() && c.fore.Valid() && OneLine(c)
    ensures AllPlain(LookTexts(c))
  {
    assert Plain(BackText(c.back)) by { ColourPlain(c.back); }
    assert Plain(ForeText(c.fore)) by { ColourPlain(c.fore); }
  }

  lemma ColourPlain(c: Colour)
    requires c.Valid()
    ensures Plain(BackText(c)) && Plain(ForeText(c))
  {
    ColourInert(c);
    ChompedSame(BackText(c));
    ChompedSame(ForeText(c));
  }

  /** What opening a file of the controls `cs` reads. */
  function Opened(home: Home, cs: seq<Control>): Option<(seq<Control>, seq<string>)>
    requires forall i | 0 <= i < |cs| :: WellFormed(home, cs[i])
  {
    var lines := FileLines(AllTexts(home, cs));
    ReadAll(home, lines, Markers(lines), UNBOUND, [])
  }

  /** Without line ends a file gives back what a container gives back. */
  lemma OpenedOneLine(home: Home, cs: seq<Control>)
    requires AllOneLine(cs) && forall i | 0 <= i < |cs| :: WellFormed(home, cs[i])
    ensures Opened(home, cs) == if AllReadable(home, cs) then Some((AllRestored(home, cs), [])) else None
  {
    TextsPlain(home, cs);
    FileLinesIff(AllTexts(home, cs));
    ReadBack(home, cs, UNBOUND, []);
    if AllReadable(home, cs) { assert [] + AllRestored(home, cs) == AllRestored(home, cs); }
  }

  /** A file gives a list of controls back, control by control, exactly when duplicating them does. */
  lemma OpenedSame(home: Home, cs: seq<Control>)
    requires Plain(home.dir) && forall i | 0 <= i < |cs| :: WellFormed(home, cs[i])
    ensures (Opened(home, cs).Some? && Opened(home, cs).value.0 == cs)
       <==> AllReadable(home, cs) && AllRestored(home, cs) == cs
  {
    var lines, texts := FileLines(AllTexts(home, cs)), AllTexts(home, cs);
    ChompedPlain(ReadLines(Content(WithLineEnds(texts))));
    ReadAllPlain(home, lines, Markers(lines), UNBOUND, []);
    ChompedPlain(texts);
    ReadAllPlain(home, LinesOf(home, cs), Markers(LinesOf(home, cs)), UNBOUND, []);
    ReadBack(home, cs, UNBOUND, []);
    if AllReadable(home, cs) { assert [] + AllRestored(home, cs) == AllRestored(home, cs); }
    if AllOneLine(cs) { OpenedOneLine(home, cs); }
  }

  // What a line end does.

  lemma FirstText(x: string, t: seq<string>)
    ensures Content(WithLineEnds([x] + t)) == x + "\n" + Content(WithLineEnds(t))
  {
    var written := WithLineEnds([x] + t);
    assert written[1..] == WithLineEnds(t);
  }

  lemma FirstFileLine(x: string, t: seq<string>)
    requires Plain(x)
    ensures FileLines([x] + t) == [x] + FileLines(t)
  {
    var s := Content(WithLineEnds(t));
    FirstText(x, t);
    FirstLine(x, s);
    ChompedFirst(x, ReadLines(s));
  }

  lemma ChompedFirst(x: string, lines: seq<string>)
    requires Plain(x)
    ensures AllChomped([x + "\n"] + lines) == [x] + AllChomped(lines)
  {
    ChompedLine(x);
    ChompedSame(x);
  }

  /** Every text that is one line is a line of the file. */
  lemma {:induction false} LineSurvives(t: seq<string>, i: nat)
    requires i < |t| && Plain(t[i])
    ensures t[i] in FileLines(t)
  {
    var x, rest := t[0], t[1..];
    assert t == [x] + rest;
    if i == 0 {
      FirstFileLine(x, rest);
    } else {
      LineSurvives(rest, i - 1);
      FirstText(x, rest);
      LinesBehind(x, Content(WithLineEnds(rest)));
      var k := 1 + LineEnds(x);
      assert FileLines(t)[k..] == FileLines(rest);
    }
  }

  lemma {:induction false} SomeMarker(list: seq<string>, marker: string)
    requires marker in list && marker == ENDCONTROLMARKER
    ensures Markers(list) > 0 && FirstMarker(list) < |list|
  {
    if list[0] != marker { SomeMarker(list[1..], marker); }
  }

  lemma ReadNoNumber(home: Home, params: seq<string>, vars: FontVars)
    requires |params| <= 9 || Atoi(params[2]).None?
    ensures ReadOne(home, params, vars).None?
  {}

  /** A line end in the first label makes opening fail, unless what follows it is a number. */
  lemma LineEndBreaks(home: Home, cs: seq<Control>, a: string, b: string)
    requires cs != [] && forall i | 0 <= i < |cs| :: WellFormed(home, cs[i])
    requires cs[0].kind != MIMAGETYPE && cs[0].caption == a + "\n" + b && Plain(a) && Plain(b) && Atoi(b).None?
    ensures Opened(home, cs).None?
  {
    var marker := ENDCONTROLMARKER;
    var t := FirstTexts(home, cs, marker);
    TwoLines(Repr(cs[0].kind), a, b, t);
    NoNumberFails(home, FileLines(AllTexts(home, cs)), marker);
  }

  lemma FirstTexts(home: Home, cs: seq<Control>, marker: string) returns (t: seq<string>)
    requires cs != [] && marker == ENDCONTROLMARKER && forall i | 0 <= i < |cs| :: WellFormed(home, cs[i])
    ensures AllTexts(home, cs) == [Repr(cs[0].kind)] + ([LabelText(home, cs[0])] + t)
    ensures marker in FileLines(AllTexts(home, cs))
  {
    var body, rest := Body(home, cs[0]), AllTexts(home, cs[1..]);
    AllTextsFirst(home, cs, marker);
    FirstOfBody(home, cs[0]);
    t := body[2..] + [marker] + rest;
    MarkerPlain(marker);
    TextsSplit(body, marker, rest);
  }

  lemma AllTextsFirst(home: Home, cs: seq<Control>, marker: string)
    requires cs != [] && marker == ENDCONTROLMARKER && forall i | 0 <= i < |cs| :: WellFormed(home, cs[i])
    ensures AllTexts(home, cs) == (Body(home, cs[0]) + [marker]) + AllTexts(home, cs[1..])
  {}

  lemma MarkerPlain(m: string)
    requires m == ENDCONTROLMARKER
    ensures Plain(m)
  {}

  lemma FirstOfBody(home: Home, c: Control)
    requires WellFormed(home, c)
    ensures Body(home, c)[0] == Repr(c.kind) && Body(home, c)[1] == LabelText(home, c)
  {}

  lemma TextsSplit(body: seq<string>, marker: string, rest: seq<string>)
    requires |body| >= 2 && Plain(marker)
    ensures (body + [marker]) + rest == [body[0]] + ([body[1]] + (body[2..] + [marker] + rest))
    ensures marker in FileLines((body + [marker]) + rest)
  {
    LineSurvives((body + [marker]) + rest, |body|);
  }

  lemma NoNumberFails(home: Home, lines: seq<string>, marker: string)
    requires |lines| > 2 && Atoi(lines[2]).None? && marker in lines && marker == ENDCONTROLMARKER
    ensures ReadAll(home, lines, Markers(lines), UNBOUND, []).None?
  {
    SomeMarker(lines, marker);
    ReadNoNumber(home, lines[..FirstMarker(lines)], UNBOUND);
  }

  /** A text with a line end is two lines of the file. */
  lemma TwoLines(first: string, a: string, b: string, t: seq<string>)
    requires Plain(first) && Plain(a) && Plain(b)
    ensures FileLines([first] + ([a + "\n" + b] + t)) == [first, a, b] + FileLines(t)
  {
    FirstFileLine(first, [a + "\n" + b] + t);
    FirstFileLine(a, [b] + t);
    FirstFileLine(b, t);
    SameContent(a, b, t);
  }

  lemma SameContent(a: string, b: string, t: seq<string>)
    ensures Content(WithLineEnds([a + "\n" + b] + t)) == Content(WithLineEnds([a] + ([b] + t)))
  {
    var s := Content(WithLineEnds(t));
    FirstText(a + "\n" + b, t);
    FirstText(b, t);
    FirstText(a, [b] + t);
    assert a + "\n" + b + "\n" + s == a + "\n" + (b + "\n" + s);
  }

  /** Controls saved and opened again, behind the header of the file. */
  method SaveAndOpen(home: Home, cs: seq<Control>) returns (r: Option<seq<Control>>)
    requires forall i | 0 <= i < |cs| :: WellFormed(home, cs[i])
    ensures AllOneLine(cs) ==>
              r == if AllReadable(home, cs) then Some(AllRestored(home, cs)) else None
    ensures Plain(home.dir) ==> (r == Some(cs) <==> AllReadable(home, cs) && AllRestored(home, cs) == cs)
  {
    var file := new Container();
    file.WriteControls(home, cs);
    assert [] + WithLineEnds(AllTexts(home, cs)) == WithLineEnds(AllTexts(home, cs));
    file.list := ReadLines(Content(file.list));
    file.Chomp();
    if AllOneLine(cs) { OpenedOneLine(home, cs); }
    if Plain(home.dir) { OpenedSame(home, cs); }
    r := ReadControls(home, file);
  }
}
