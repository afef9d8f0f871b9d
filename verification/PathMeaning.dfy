/** What normalised paths mean, and how relative and absolute paths undo each other. */
module PathMeaning {
  import opened Strings
  import opened Paths
  import opened Wrappers

  /** The directory that one segment leads to from `place`; the root is its own parent. */
  function After(place: seq<string>, seg: string): seq<string> {
    if seg == "" || seg == "." then place
    else if seg == ".." then if place == [] then [] else place[..|place| - 1]
    else place + [seg]
  }

  /** Walking the segments `todo` from `place`: what the file system makes of them. */
  function Walk(place: seq<string>, todo: seq<string>): (r: seq<string>)
    decreases |todo|
  {
    if todo == [] then place else Walk(After(place, todo[0]), todo[1..])
  }

  /** The place an absolute path names. */
  function Meaning(path: string): seq<string> { Walk([], Split(path)) }

  /** A segment that names a directory or file: neither a no-op nor a climb. */
  predicate Name(seg: string) { seg != "" && seg != "." && seg != ".." }

  /** Every segment that climbing takes back is a name. */
  predicate TakesNames(done: seq<string>, todo: seq<string>)
    requires |done| > 0
    decreases |todo|
  {
    |todo| > 1 ==>
      if todo[0] != ".." then TakesNames(done + [todo[0]], todo[1..])
      else if |done| >= 2 then Name(done[|done| - 1]) && TakesNames(done[..|done| - 1], todo[1..])
      else true
  }

  lemma {:induction false} WalkConcat(stack: seq<string>, a: seq<string>, b: seq<string>)
    ensures Walk(stack, a + b) == Walk(Walk(stack, a), b)
    decreases |a|
  {
    if a == [] {
      assert a + b == b;
    } else {
      assert (a + b)[1..] == a[1..] + b;
      WalkConcat(After(stack, a[0]), a[1..], b);
    }
  }

  /** Climbing that takes back only names leads to the same place. */
  lemma {:induction false} ClimbKeepsMeaning(done: seq<string>, todo: seq<string>)
    requires |done| > 0 && TakesNames(done, todo)
    ensures Walk([], Climb(done, todo)) == Walk(Walk([], done), todo)
    decreases |todo|
  {
    if |todo| <= 1 || (todo[0] == ".." && |done| == 1) {
      WalkConcat([], done, todo);
    } else {
      var rest := todo[1..];
      assert todo == [todo[0]] + rest;
      WalkConcat(Walk([], done), [todo[0]], rest);
      if todo[0] != ".." {
        WalkConcat([], done, [todo[0]]);
        ClimbKeepsMeaning(done + [todo[0]], rest);
      } else {
        TakeBack(done);
        ClimbKeepsMeaning(done[..|done| - 1], rest);
      }
    }
  }

  lemma TakeBack(done: seq<string>)
    requires |done| >= 2 && Name(done[|done| - 1])
    ensures Walk(Walk([], done), [".."]) == Walk([], done[..|done| - 1])
  {
    var under, top := done[..|done| - 1], done[|done| - 1];
    var place := Walk([], under);
    assert done == under + [top];
    WalkConcat([], under, [top]);
    WalkOne(place, top);
    WalkOne(place + [top], "..");
    assert (place + [top])[..|place + [top]| - 1] == place;
  }

  lemma WalkOne(place: seq<string>, seg: string)
    ensures Walk(place, [seg]) == After(place, seg)
  {}

  /** The second loop never changes the place. */
  lemma {:induction false} KeepKeepsMeaning(stack: seq<string>, todo: seq<string>)
    ensures Walk(stack, Keep(todo)) == Walk(stack, todo)
    decreases |todo|
  {
    if |todo| > 1 {
      var rest := todo[1..];
      assert todo == [todo[0]] + rest;
      WalkConcat(stack, [todo[0]], rest);
      assert [todo[0]][1..] == [];
      if todo[0] == "." {
        assert [] + Keep(rest) == Keep(rest);
        KeepKeepsMeaning(stack, rest);
      } else {
        WalkConcat(stack, [todo[0]], Keep(rest));
        KeepKeepsMeaning(Walk(stack, [todo[0]]), rest);
      }
    }
  }

  lemma DropKeepsMeaning(segs: seq<string>)
    requires |segs| > 0
    ensures Walk([], DropHere(segs)) == Walk([], segs)
  {
    assert segs == [segs[0]] + segs[1..];
    WalkConcat([], [segs[0]], segs[1..]);
    WalkConcat([], [segs[0]], Keep(segs[1..]));
    KeepKeepsMeaning(Walk([], [segs[0]]), segs[1..]);
  }

  /** Neither does squeezing slashes: the first segment stays, and the others walk to the same place. */
  lemma {:induction false} SqueezeKeepsMeaning(s: string, stack: seq<string>)
    ensures Split(Squeeze(s))[0] == Split(s)[0]
    ensures Walk(stack, Split(Squeeze(s))[1..]) == Walk(stack, Split(s)[1..])
    decreases |s|
  {
    if |s| >= 2 {
      if s[0] == '/' && s[1] == '/' {
        var t := s[2..];
        assert s[1..] == ['/'] + t && s[1..][1..] == t;
        assert ("/" + Squeeze(t))[1..] == Squeeze(t);
        WalkHead(stack, Split(t));
        WalkHead(stack, Split(Squeeze(t)));
        SqueezeKeepsMeaning(t, Walk(stack, [Split(t)[0]]));
        assert Split(s)[1..] == [""] + Split(t);
        assert ([""] + Split(t))[1..] == Split(t);
      } else {
        var t := s[1..];
        assert ([s[0]] + Squeeze(t))[1..] == Squeeze(t);
        if s[0] == '/' {
          WalkHead(stack, Split(t));
          WalkHead(stack, Split(Squeeze(t)));
          SqueezeKeepsMeaning(t, Walk(stack, [Split(t)[0]]));
        } else {
          SqueezeKeepsMeaning(t, stack);
        }
      }
    }
  }

  lemma WalkHead(stack: seq<string>, segs: seq<string>)
    requires |segs| > 0
    ensures Walk(stack, segs) == Walk(Walk(stack, [segs[0]]), segs[1..])
  {}

  /** Only the climbs can change the place that a path names. */
  lemma ScrubMeansClimb(path: string)
    ensures Meaning(Scrubbed(path)) == Walk([], Climbed(Split(path)))
  {
    var segs := Split(path);
    var r := Climbed(segs);
    ClimbSegments([segs[0]], segs[1..]);
    DropSegments(r);
    DropKeepsMeaning(r);
    SplitJoin(DropHere(r));
    var s := Join(DropHere(r));
    WalkHead([], Split(Squeeze(s)));
    WalkHead([], Split(s));
    SqueezeKeepsMeaning(s, Walk([], [Split(s)[0]]));
  }

  lemma DropSegments(segs: seq<string>)
    requires Segments(segs)
    ensures Segments(DropHere(segs))
  {
    KeepSegments(segs[1..]);
  }

  lemma {:induction false} KeepSegments(todo: seq<string>)
    requires forall i | 0 <= i < |todo| :: NoSlash(todo[i])
    ensures forall i | 0 <= i < |Keep(todo)| :: NoSlash(Keep(todo)[i])
  {
    if |todo| > 1 { KeepSegments(todo[1..]); }
  }

  /**
   `scrubPath` ends on every absolute path, and if each `..` takes back a name, the result names the
   same place as the path did.
   */
  lemma ScrubKeepsMeaning(path: string)
    requires path != "" && path[0] == '/'
    ensures !Diverges(path)
    ensures TakesNames([""], Split(path)[1..]) ==> Meaning(Scrubbed(path)) == Meaning(path)
  {
    var segs := Split(path);
    AbsoluteTerminates(path);
    ScrubMeansClimb(path);
    if TakesNames([""], segs[1..]) {
      ClimbKeepsMeaning([""], segs[1..]);
      WalkHead([], segs);
    }
  }

  /** Walking `todo` from `place` never climbs above the root. */
  predicate StaysBelow(place: seq<string>, todo: seq<string>)
    decreases |todo|
  {
    todo != [] ==> (todo[0] == ".." ==> place != []) && StaysBelow(After(place, todo[0]), todo[1..])
  }

  function CountNames(segs: seq<string>): (n: nat) {
    if segs == [] then 0 else CountNames(segs[..|segs| - 1]) + if Name(segs[|segs| - 1]) then 1 else 0
  }

  lemma CountTop(under: seq<string>, top: string)
    ensures CountNames(under + [top]) == CountNames(under) + if Name(top) then 1 else 0
  {}

  lemma CountLast(done: seq<string>)
    requires done != []
    ensures CountNames(done) == CountNames(done[..|done| - 1]) + if Name(done[|done| - 1]) then 1 else 0
  {}

  lemma {:induction false} WalkCounts(done: seq<string>)
    requires forall i | 0 <= i < |done| :: done[i] != ".."
    ensures |Walk([], done)| == CountNames(done)
  {
    if done != [] {
      var under, top := done[..|done| - 1], done[|done| - 1];
      assert done == under + [top];
      WalkCounts(under);
      WalkConcat([], under, [top]);
      WalkOne(Walk([], under), top);
    }
  }

  /**
   How many names too many the climbs leave, read off the segments: one more for each inner `..` below
   the root that takes back no name, one fewer for each `..` at the root that still takes back a name.
   `depth` is how deep the true place is.
   */
  function Surplus(done: seq<string>, todo: seq<string>, depth: nat): (n: int)
    requires |done| > 0
    decreases |todo|
  {
    if todo == [] then 0
    else if todo[0] != ".." then
      if |todo| == 1 then 0
      else Surplus(done + [todo[0]], todo[1..], if Name(todo[0]) then depth + 1 else depth)
    else if |todo| == 1 then
      if depth == 0 && CountNames(done) > 0 then -1 else 0
    else if |done| == 1 then 0
    else Taken(done, depth) + Surplus(done[..|done| - 1], todo[1..], if depth > 0 then depth - 1 else 0)
  }

  /** What one `..` adds. */
  function Taken(done: seq<string>, depth: nat): (n: int)
    requires |done| > 0
  {
    var name := Name(done[|done| - 1]);
    if depth > 0 && !name then 1 else if depth == 0 && name then -1 else 0
  }

  /** `a` is `b` with some entries left out. */
  predicate Within(a: seq<string>, b: seq<string>)
    decreases |b|
  {
    a == []
    || (b != []
        && if a[|a| - 1] == b[|b| - 1] then Within(a[..|a| - 1], b[..|b| - 1]) else Within(a, b[..|b| - 1]))
  }

  lemma {:induction false} WithinLess(a: seq<string>, b: seq<string>)
    requires a != [] && Within(a, b)
    ensures |a| <= |b| && Within(a[..|a| - 1], b) && Within(a[..|a| - 1], b[..|b| - 1])
    ensures |a| == |b| ==> a == b
    decreases |b|
  {
    var a', b' := a[..|a| - 1], b[..|b| - 1];
    if a[|a| - 1] == b[|b| - 1] {
      assert a == a' + [a[|a| - 1]] && b == b' + [b[|b| - 1]];
    } else {
      WithinLess(a, b');
    }
    if a' != [] { WithinLess(a', b'); }
  }

  lemma {:induction false} WithinSelf(a: seq<string>)
    ensures Within(a, a)
  {
    if a != [] { WithinSelf(a[..|a| - 1]); }
  }

  lemma WithinPush(a: seq<string>, b: seq<string>, seg: string)
    requires Within(a, b)
    ensures Within(a + [seg], b + [seg])
  {
    assert (a + [seg])[..|a|] == a && (b + [seg])[..|b|] == b;
  }

  /** The true place and the names on the stack after one more segment. */
  lemma AfterWithin(place: seq<string>, names: seq<string>, seg: string)
    requires Within(place, names)
    ensures Within(After(place, seg), After(names, seg))
  {
    if Name(seg) { WithinPush(place, names, seg); }
    else if seg == ".." && place != [] { WithinLess(place, names); }
  }

  lemma StackAfter(done: seq<string>, seg: string)
    requires (forall i | 0 <= i < |done| :: done[i] != "..") && seg != ".."
    ensures Walk([], done + [seg]) == After(Walk([], done), seg)
    ensures CountNames(done + [seg]) == CountNames(done) + if Name(seg) then 1 else 0
  {
    WalkConcat([], done, [seg]);
    WalkOne(Walk([], done), seg);
    CountTop(done, seg);
  }

  /** Climbing leaves the true place with some names put in, and counts how many. */
  lemma {:induction false} ClimbSurplus(done: seq<string>, todo: seq<string>, place: seq<string>)
    requires |done| > 0 && done[0] == "" && forall i | 0 <= i < |done| :: done[i] != ".."
    requires Within(place, Walk([], done))
    ensures Within(Walk(place, todo), Walk([], Climb(done, todo)))
    ensures |Walk([], Climb(done, todo))| - |Walk(place, todo)|
            == CountNames(done) - |place| + Surplus(done, todo, |place|)
    decreases |todo|
  {
    if |todo| <= 1 {
      ClimbEnds(done, todo, place);
    } else {
      var seg, rest, onward := todo[0], todo[1..], After(place, todo[0]);
      assert Walk(place, todo) == Walk(onward, rest);
      if seg != ".." {
        ClimbPuts(done, place, seg);
        ClimbSurplus(done + [seg], rest, onward);
        assert Surplus(done, todo, |place|) == Surplus(done + [seg], rest, |onward|);
      } else if |done| == 1 {
        ClimbStops(done, todo, place);
      } else {
        ClimbTakes(done, place);
        ClimbSurplus(done[..|done| - 1], rest, onward);
        assert Surplus(done, todo, |place|) == Taken(done, |place|) + Surplus(done[..|done| - 1], rest, |onward|);
      }
    }
  }

  lemma ClimbEnds(done: seq<string>, todo: seq<string>, place: seq<string>)
    requires |done| > 0 && |todo| <= 1 && (forall i | 0 <= i < |done| :: done[i] != "..")
             && Within(place, Walk([], done))
    ensures Within(Walk(place, todo), Walk([], done + todo))
    ensures |Walk([], done + todo)| - |Walk(place, todo)| == CountNames(done) - |place| + Surplus(done, todo, |place|)
  {
    WalkCounts(done);
    if place != [] { WithinLess(place, Walk([], done)); }
    WalkConcat([], done, todo);
    if |todo| == 1 {
      assert todo == [todo[0]];
      WalkOne(place, todo[0]);
      WalkOne(Walk([], done), todo[0]);
      AfterWithin(place, Walk([], done), todo[0]);
    }
  }

  /** Any other segment goes on the stack, and leads on from the true place. */
  lemma ClimbPuts(done: seq<string>, place: seq<string>, seg: string)
    requires (forall i | 0 <= i < |done| :: done[i] != "..") && seg != ".." && Within(place, Walk([], done))
    ensures Within(After(place, seg), Walk([], done + [seg]))
    ensures CountNames(done + [seg]) - |After(place, seg)| == CountNames(done) - |place|
  {
    StackAfter(done, seg);
    AfterWithin(place, Walk([], done), seg);
  }

  /** At the bottom of the stack nothing has been left over. */
  lemma ClimbStops(done: seq<string>, todo: seq<string>, place: seq<string>)
    requires done == [""] && Within(place, Walk([], done))
    ensures place == [] && CountNames(done) == 0 && Walk([], done + todo) == Walk(place, todo)
    ensures Within(Walk(place, todo), Walk([], done + todo))
  {
    WalkOne([], "");
    assert done == [] + [""];
    CountTop([], "");
    WalkConcat([], done, todo);
    WithinSelf(Walk([], todo));
  }

  /** A `..` takes the top off the stack, and a name off the true place. */
  lemma ClimbTakes(done: seq<string>, place: seq<string>)
    requires |done| >= 2 && (forall i | 0 <= i < |done| :: done[i] != "..") && Within(place, Walk([], done))
    ensures var under, top := done[..|done| - 1], done[|done| - 1];
            && Within(After(place, ".."), Walk([], under))
            && CountNames(under) - |After(place, "..")| == CountNames(done) - |place| + Taken(done, |place|)
  {
    var under, top := done[..|done| - 1], done[|done| - 1];
    assert done == under + [top];
    StackAfter(under, top);
    var names := Walk([], under);
    if place != [] {
      WithinLess(place, Walk([], done));
      if Name(top) { assert (names + [top])[..|names|] == names; }
    }
  }

  /** An absolute path keeps its meaning exactly when the climbs leave no name too many. */
  lemma ScrubKeepsMeaningIff(path: string)
    requires path != "" && path[0] == '/'
    ensures Meaning(Scrubbed(path)) == Meaning(path) <==> Surplus([""], Split(path)[1..], 0) == 0
  {
    var segs := Split(path);
    ScrubMeansClimb(path);
    AbsoluteTerminates(path);
    WalkHead([], segs);
    WalkOne([], "");
    CountTop([], "");
    assert [] + [""] == [""];
    ClimbSurplus([""], segs[1..], []);
    var place, result := Walk([], segs[1..]), Walk([], Climbed(segs));
    if place != [] { WithinLess(place, result); }
  }

  /** If the path does not climb above the root, there is none left over exactly when each inner `..` takes back a
      name. */
  lemma {:induction false} SurplusBelow(done: seq<string>, todo: seq<string>, place: seq<string>)
    requires |done| > 0 && done[0] == "" && StaysBelow(place, todo) && |place| <= CountNames(done)
    ensures Surplus(done, todo, |place|) >= 0
    ensures Surplus(done, todo, |place|) == 0 <==> TakesNames(done, todo)
    decreases |todo|
  {
    if |todo| > 1 {
      if todo[0] != ".." {
        CountTop(done, todo[0]);
        SurplusBelow(done + [todo[0]], todo[1..], After(place, todo[0]));
      } else if |done| > 1 {
        CountLast(done);
        SurplusBelow(done[..|done| - 1], todo[1..], After(place, ".."));
      }
    }
  }

  /** A path that stays below the root keeps its meaning exactly when each inner `..` takes back a name. */
  lemma ScrubKeepsMeaningBelow(path: string)
    requires path != "" && path[0] == '/' && StaysBelow([], Split(path))
    ensures Meaning(Scrubbed(path)) == Meaning(path) <==> TakesNames([""], Split(path)[1..])
  {
    AbsoluteTerminates(path);
    ScrubKeepsMeaningIff(path);
    SurplusBelow([""], Split(path)[1..], []);
  }

  /** The paths on which it fails: a `.` before a `..` is taken back in place of the directory before it. */
  lemma ScrubLosesMeaning(a: string, x: string)
    requires Name(a) && Name(x) && NoSlash(a) && NoSlash(x)
    ensures var segs := ["", a, ".", "..", x];
            Meaning(Join(segs)) == [x] && Meaning(Scrubbed(Join(segs))) == [a, x]
  {
    var segs := ["", a, ".", "..", x];
    SplitJoin(segs);
    ScrubMeansClimb(Join(segs));
    assert segs[1..] == [a, "."] + ["..", x] && [""] + [a, "."] == ["", a, "."];
    ClimbSkip([""], [a, "."], ["..", x]);
    assert ["..", x][1..] == [x] && ["", a, "."][..2] == ["", a];
    assert Climbed(segs) == ["", a] + [x];
    WalkSteps(a, x);
  }

  lemma WalkSteps(a: string, x: string)
    requires Name(a) && Name(x)
    ensures Walk([], ["", a] + [x]) == [a, x]
    ensures Walk([], ["", a, ".", "..", x]) == [x]
  {
    assert ["", a] + [x] == [""] + [a] + [x] && ["", a, ".", "..", x] == [""] + [a] + ["."] + [".."] + [x];
    assert forall seg: string :: [seg][1..] == [];
    WalkConcat([], [""] + [a], [x]);
    WalkConcat([], [""], [a]);
    WalkConcat([], [""] + [a] + ["."] + [".."], [x]);
    WalkConcat([], [""] + [a] + ["."], [".."]);
    WalkConcat([], [""] + [a], ["."]);
    assert Walk([], [""]) == [] && Walk([], [a]) == [a] && Walk([a], ["."]) == [a] && Walk([a], [".."]) == [];
  }

  // Relative and absolute paths.

  /** What `makeRelativePath` hands to `scrubPath`. */
  function RelativeRaw(super: string, sub: string): string {
    if super != "" && Find(sub, super) == 0 then "./" + sub[|super|..] else sub
  }

  function MakeRelativePath(super: string, sub: string): string
    requires !Diverges(RelativeRaw(super, sub))
  {
    Scrubbed(RelativeRaw(super, sub))
  }

  /** What `makeAbsolutePath` hands to `scrubPath`; it fails on the empty path, whose first character it asks for. */
  function AbsoluteRaw(super: string, sub: string): Option<string> {
    if Find(sub, "./") == 0 || Find(sub, "../") == 0 then Some(super + sub)
    else if sub == "" then None
    else if sub[0] != '/' then Some(super + "/" + sub)
    else Some(sub)
  }

  function MakeAbsolutePath(super: string, sub: string): Option<string>
    requires AbsoluteRaw(super, sub).Some? ==> !Diverges(AbsoluteRaw(super, sub).value)
  {
    match AbsoluteRaw(super, sub)
    case None => None
    case Some(path) => Some(Scrubbed(path))
  }

  /** A name that is neither absolute nor starts with dots is looked up in the directory, however that is written. */
  lemma BareMeans(super: string, sub: string)
    requires sub != "" && sub[0] != '/' && Find(sub, "./") != 0 && Find(sub, "../") != 0
    ensures AbsoluteRaw(super, sub).Some?
    ensures Meaning(AbsoluteRaw(super, sub).value) == Walk(Meaning(super), Split(sub))
  {
    BelowMeans(super, sub);
  }

  /** A path that starts with dots is followed from a directory that ends in a slash. */
  lemma DottedMeans(super: string, sub: string)
    requires Find(sub, "./") == 0 || Find(sub, "../") == 0
    requires super != "" && super[|super| - 1] == '/'
    ensures AbsoluteRaw(super, sub).Some?
    ensures Meaning(AbsoluteRaw(super, sub).value) == Walk(Meaning(super), Split(sub))
  {
    var front := super[..|super| - 1];
    assert super == front + "/" + "" && super + sub == front + "/" + sub;
    BelowMeans(front, sub);
    BelowMeans(front, "");
    WalkOne(Meaning(front), "");
  }

  /** Following one path and then the other is following them joined by a slash. */
  lemma BelowMeans(a: string, b: string)
    ensures Meaning(a + "/" + b) == Walk(Meaning(a), Split(b))
  {
    JoinConcat(Split(a), Split(b));
    SplitJoin(Split(a) + Split(b));
    WalkConcat([], Split(a), Split(b));
  }

  /** An absolute path stays as it is; the empty path fails. */
  lemma AbsoluteStays(super: string, sub: string)
    ensures sub != "" && sub[0] == '/' ==> AbsoluteRaw(super, sub) == Some(sub)
    ensures sub == "" ==> AbsoluteRaw(super, sub) == None
  {
    if sub != "" && sub[0] == '/' { assert !Occurs(sub, "./", 0) && !Occurs(sub, "../", 0); }
  }

  /** Neither loop nor the replacement finds anything to do. */
  predicate Clean(path: string) { Find(path, UP) < 0 && Find(path, HERE) < 0 && Find(path, "//") < 0 }

  /** No inner segment is `..`, `.` or empty. */
  predicate CleanSegments(segs: seq<string>) {
    FirstFrom(segs, "..", 1) < 0 && FirstFrom(segs, ".", 1) < 0 && FirstFrom(segs, "", 1) < 0
  }

  lemma CleanIffSegments(segs: seq<string>)
    requires Segments(segs)
    ensures Clean(Join(segs)) <==> CleanSegments(segs)
  {
    FindSegment(segs, "..");
    FindSegment(segs, ".");
    FindSegment(segs, "");
    assert "/" + ".." + "/" == UP && "/" + "." + "/" == HERE && "/" + "" + "/" == "//";
  }

  lemma {:induction false} SqueezeIdentity(s: string)
    requires forall k :: !Occurs(s, "//", k)
    ensures Squeeze(s) == s
  {
    if |s| >= 2 {
      assert s[0..2] == [s[0], s[1]];
      assert !Occurs(s, "//", 0);
      forall k ensures !Occurs(s[1..], "//", k) {
        if 0 <= k && k + 2 <= |s| - 1 { assert s[1..][k..k + 2] == s[k + 1..k + 3]; assert !Occurs(s, "//", k + 1); }
      }
      SqueezeIdentity(s[1..]);
    }
  }

  /** Clean segments pass through all three stages. */
  lemma ScrubClean(segs: seq<string>)
    requires Segments(segs) && CleanSegments(segs)
    ensures !Diverges(Join(segs)) && Scrubbed(Join(segs)) == Join(segs)
  {
    SplitJoin(segs);
    ClimbRest(segs);
    DropRest(segs);
    FindSegment(segs, "");
    assert "/" + "" + "/" == "//";
    SqueezeIdentity(Join(segs));
  }

  /** Where the inner segments stand when a `.` is put between clean ones. */
  lemma Dotted(a: seq<string>, c: seq<string>, segs: seq<string>)
    requires |a| > 0 && |c| > 0 && Segments(a + c) && CleanSegments(a + c) && segs == a + (["."] + c)
    ensures Segments(segs)
    ensures FirstFrom(segs, "..", 1) < 0 && FirstFrom(segs, "", 1) < 0 && FirstFrom(segs, ".", 1) == |a|
  {
    var n := |a|;
    assert segs[n] == ".";
    assert forall i | 0 <= i < n :: segs[i] == (a + c)[i];
    assert forall i | n < i < |segs| :: segs[i] == (a + c)[i - 1];
    assert NoSlash(".");
  }

  /** One `.` put between clean segments is dropped again, unless it comes right behind the root. */
  lemma ScrubDot(a: seq<string>, c: seq<string>, segs: seq<string>)
    requires |a| > 0 && |c| > 0 && a[0] == "" && Segments(a + c) && CleanSegments(a + c) && segs == a + (["."] + c)
    ensures !Diverges(Join(segs)) && Scrubbed(Join(segs)) == Join(if |a| == 1 then segs else a + c)
  {
    Dotted(a, c, segs);
    SplitJoin(segs);
    ClimbRest(segs);
    if |a| == 1 {
      DropRest(segs);
      NothingToSqueeze(segs);
    } else {
      DropStep(segs, |a|);
      assert segs[..|a|] == a && segs[|a| + 1..] == c;
      DropRest(a + c);
      NothingToSqueeze(a + c);
    }
  }

  lemma NothingToSqueeze(segs: seq<string>)
    requires Segments(segs) && FirstFrom(segs, "", 1) < 0
    ensures Squeeze(Join(segs)) == Join(segs)
  {
    FindSegment(segs, "");
    assert "/" + "" + "/" == "//";
    SqueezeIdentity(Join(segs));
  }

  /** A file below a directory, in segments. */
  lemma Below(dir: string, rest: string) returns (a: seq<string>, c: seq<string>)
    requires dir != "" && dir[0] == '/' && dir[|dir| - 1] == '/' && Clean(dir + rest)
    ensures |a| > 0 && |c| > 0 && a[0] == "" && Segments(a + c) && CleanSegments(a + c)
    ensures Join(a) + "/" == dir && Join(c) == rest && Join(a + c) == dir + rest
    ensures |a| == 1 <==> dir == "/"
  {
    var parent := dir[..|dir| - 1];
    a, c := Split(parent), Split(rest);
    assert parent + "/" == dir;
    JoinConcat(a, c);
    assert Join(a + c) == dir + rest;
    CleanIffSegments(a + c);
    if |a| == 1 { assert NoSlash(a[0]); }
  }

  lemma Prefixed(s: string, sub: string)
    requires sub != "" && Find(s, sub) == 0
    ensures |sub| <= |s| && s == sub + s[|sub|..]
  {}

  lemma DotClean(a: seq<string>, c: seq<string>, segs: seq<string>)
    requires |a| > 0 && |c| > 0 && Segments(a + c) && CleanSegments(a + c) && segs == ["."] + c
    ensures Segments(segs) && CleanSegments(segs)
  {
    assert forall i | 1 <= i < |segs| :: segs[i] == (a + c)[|a| + i - 1];
    assert NoSlash(segs[0]);
  }

  /** The directory of a panel: empty before it is saved, otherwise a clean absolute path ending in a slash. */
  predicate Directory(dir: string) { dir == "" || (dir[0] == '/' && dir[|dir| - 1] == '/' && Clean(dir)) }

  /**
   Making a path relative to the directory of a panel and absolute again gives it back, for every clean
   absolute file path, just when the directory is not the root.
   */
  lemma RelativeThenAbsolute(dir: string, file: string)
    requires Directory(dir)
    requires file != "" && file[0] == '/' && Clean(file)
    ensures !Diverges(RelativeRaw(dir, file))
    ensures var relative := MakeRelativePath(dir, file);
            && AbsoluteRaw(dir, relative).Some? && !Diverges(AbsoluteRaw(dir, relative).value)
            && (MakeAbsolutePath(dir, relative) == Some(file) <==> dir != "/")
  {
    if dir != "" && Find(file, dir) == 0 {
      Prefixed(file, dir);
      BelowRoundTrip(dir, file, file[|dir|..]);
    } else {
      assert file[0..1] == "/";
      assert Occurs(file, "/", 0);
      CleanIffSegments(Split(file));
      ScrubClean(Split(file));
      assert !Occurs(file, "./", 0) && !Occurs(file, "../", 0);
    }
  }

  /** A file below the directory is written from `./`, any other as it is. */
  lemma RelativeForm(dir: string, file: string)
    requires Directory(dir)
    requires file != "" && file[0] == '/' && Clean(file)
    ensures !Diverges(RelativeRaw(dir, file))
    ensures dir == "" || |dir| <= |file| || Find(file, dir) != 0
    ensures MakeRelativePath(dir, file) == if dir != "" && Find(file, dir) == 0 then "./" + file[|dir|..] else file
  {
    if dir != "" && Find(file, dir) == 0 {
      Prefixed(file, dir);
      RelativeBelow(dir, file, file[|dir|..]);
    } else {
      CleanIffSegments(Split(file));
      ScrubClean(Split(file));
    }
  }

  lemma BelowRoundTrip(dir: string, file: string, rest: string)
    requires dir != "" && dir[0] == '/' && dir[|dir| - 1] == '/'
    requires Clean(file) && file == dir + rest && Find(file, dir) == 0
    ensures !Diverges(RelativeRaw(dir, file))
    ensures var relative := MakeRelativePath(dir, file);
            && AbsoluteRaw(dir, relative).Some? && !Diverges(AbsoluteRaw(dir, relative).value)
            && (MakeAbsolutePath(dir, relative) == Some(file) <==> dir != "/")
  {
    RelativeBelow(dir, file, rest);
    AbsoluteBelow(dir, file, rest, "./" + rest);
  }

  lemma RelativeBelow(dir: string, file: string, rest: string)
    requires dir != "" && dir[0] == '/' && dir[|dir| - 1] == '/'
    requires Clean(file) && file == dir + rest && Find(file, dir) == 0
    ensures !Diverges(RelativeRaw(dir, file)) && MakeRelativePath(dir, file) == "./" + rest
  {
    var a, c := Below(dir, rest);
    assert RelativeRaw(dir, file) == "./" + rest by { assert file[|dir|..] == rest; }
    DotClean(a, c, ["."] + c);
    JoinConcat(["."], c);
    assert "." + "/" + rest == "./" + rest;
    ScrubClean(["."] + c);
  }

  lemma AbsoluteBelow(dir: string, file: string, rest: string, relative: string)
    requires dir != "" && dir[0] == '/' && dir[|dir| - 1] == '/'
    requires Clean(file) && file == dir + rest && relative == "./" + rest
    ensures AbsoluteRaw(dir, relative) == Some(dir + relative) && !Diverges(dir + relative)
    ensures Scrubbed(dir + relative) == file <==> dir != "/"
  {
    assert relative[0..2] == "./";
    assert Occurs(relative, "./", 0);
    var a, c := Below(dir, rest);
    var segs := a + (["."] + c);
    JoinHere(a, c);
    assert dir + relative == Join(segs) by { assert Join(a) + "/" + ("./" + rest) == Join(a) + "/./" + rest; }
    ScrubDot(a, c, segs);
    assert |Join(segs)| == |file| + 2;
  }
}
