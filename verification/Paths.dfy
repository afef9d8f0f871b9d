/** GrIPD's path code (posix branches): a string-rewriting normaliser, and relative and absolute paths. */
module Paths {
  import opened Strings

  const UP := "/../"
  const HERE := "/./"

  /** The part of `path` before `index`, as Python slices it: index -1 drops the last character. */
  function Upto(path: string, index: int): string
    requires path != "" && -1 <= index <= |path|
  {
    if index < 0 then path[..|path| - 1] else path[..index]
  }

  /** One round of the first loop: drops a `..` and the segment before it. */
  function StepUp(path: string): string
    requires Find(path, UP) >= 0
  {
    var f := Find(path, UP);
    Upto(path, LastSlash(path[..f])) + path[f + 3..]
  }

  /** One round of the second loop: drops a `.`. */
  function StepHere(path: string): string
    requires Find(path, HERE) >= 0
  {
    var index := Find(path, HERE);
    path[..index] + path[index + 2..]
  }

  /** Halves runs of slashes from the left, as replacing `//` by `/` does. */
  function Squeeze(s: string): string {
    if |s| < 2 then s
    else if s[0] == '/' && s[1] == '/' then "/" + Squeeze(s[2..])
    else [s[0]] + Squeeze(s[1..])
  }

  // What the loops mean for the segments of a path.

  /**
   Reading the segments `todo` onto the stack `done`: an inner `..` takes the top segment off, whatever
   it is. At the bottom of the stack reading stops, and the last segment is never looked at.
   */
  function Climb(done: seq<string>, todo: seq<string>): (r: seq<string>)
    requires |done| > 0
    ensures |r| > 0
    decreases |todo|
  {
    if |todo| <= 1 then done + todo
    else if todo[0] != ".." then Climb(done + [todo[0]], todo[1..])
    else if |done| >= 2 then Climb(done[..|done| - 1], todo[1..])
    else done + todo
  }

  /** Reading comes to a `..` that would take off the first segment of a relative path. */
  predicate Stuck(done: seq<string>, todo: seq<string>)
    requires |done| > 0
    decreases |todo|
  {
    && |todo| > 1
    && if todo[0] != ".." then Stuck(done + [todo[0]], todo[1..])
       else if |done| >= 2 then Stuck(done[..|done| - 1], todo[1..])
       else done[0] != ""
  }

  /** The inner segments of `todo` that are not `.`, and its last segment. */
  function Keep(todo: seq<string>): seq<string> {
    if |todo| <= 1 then todo else (if todo[0] == "." then [] else [todo[0]]) + Keep(todo[1..])
  }

  /** All inner `.` go, unless the path starts with one. */
  function DropHere(segs: seq<string>): (r: seq<string>)
    requires |segs| > 0
    ensures |r| > 0
  {
    if |segs| >= 3 && segs[0] == "" && segs[1] == "." then segs else [segs[0]] + Keep(segs[1..])
  }

  function Climbed(segs: seq<string>): (r: seq<string>)
    requires |segs| > 0
    ensures |r| > 0
  {
    Climb([segs[0]], segs[1..])
  }

  /** The first loop never ends on this path. */
  predicate Diverges(path: string) {
    var segs := Split(path);
    Stuck([segs[0]], segs[1..])
  }

  /** What `scrubPath` makes of a path, in terms of its segments. */
  function Scrubbed(path: string): string { Squeeze(Join(DropHere(Climbed(Split(path))))) }

  // The first loop.

  lemma {:induction false} ClimbSkip(done: seq<string>, mid: seq<string>, todo: seq<string>)
    requires |done| > 0 && |todo| > 0 && forall i | 0 <= i < |mid| :: mid[i] != ".."
    ensures Climb(done, mid + todo) == Climb(done + mid, todo)
    ensures Stuck(done, mid + todo) == Stuck(done + mid, todo)
    decreases |mid|
  {
    if mid == [] {
      assert mid + todo == todo && done + mid == done;
    } else {
      assert (mid + todo)[1..] == mid[1..] + todo;
      assert done + [mid[0]] + mid[1..] == done + mid;
      ClimbSkip(done + [mid[0]], mid[1..], todo);
    }
  }

  /** Where the first loop looks next: nothing to do, the root, or a `..` to take back. */
  lemma GuardUp(segs: seq<string>)
    requires Segments(segs)
    ensures var i := FirstFrom(segs, "..", 1);
            Find(Join(segs), UP) > 0 <==> i >= 2 || (i == 1 && segs[0] != "")
    ensures var i := FirstFrom(segs, "..", 1); Find(Join(segs), UP) >= 0 <==> i >= 1
  {
    var i := FirstFrom(segs, "..", 1);
    FindSegment(segs, "..");
    assert "/" + ".." + "/" == UP;
    if i >= 2 { PrefixGrows(segs, 1, i); }
    if i >= 1 { assert segs[..1] == [segs[0]]; }
  }

  /** The round on the string: `a/x/../c` becomes `a/c`. */
  lemma StepUpString(a: string, x: string, c: string, path: string)
    requires NoSlash(x) && path == a + "/" + x + "/../" + c && Find(path, UP) == |a| + 1 + |x|
    ensures StepUp(path) == a + "/" + c
  {
    var f := |a| + 1 + |x|;
    assert path[..f] == a + "/" + x;
    assert path[f + 3..] == "/" + c;
    assert LastSlash(a + "/" + x) == |a| by {
      var s, k := a + "/" + x, LastSlash(a + "/" + x);
      assert s[|a|] == '/';
      assert forall j | |a| < j < |s| :: s[j] == x[j - |a| - 1];
    }
    assert path[..|a|] == a;
  }

  /** A path around its segments `i - 1` and `i`. */
  lemma JoinAround(segs: seq<string>, i: nat)
    requires 2 <= i < |segs| - 1 && segs[i] == ".."
    ensures Join(segs) == Join(segs[..i - 1]) + "/" + segs[i - 1] + "/../" + Join(segs[i + 1..])
    ensures |Join(segs[..i])| == |Join(segs[..i - 1])| + 1 + |segs[i - 1]|
    ensures Join(segs[..i - 1] + segs[i + 1..]) == Join(segs[..i - 1]) + "/" + Join(segs[i + 1..])
  {
    var a, x, c := segs[..i - 1], segs[i - 1], segs[i + 1..];
    assert segs == a + ([x] + ([".."] + c)) && segs[..i] == a + [x];
    JoinConcat(a, [x] + ([".."] + c));
    JoinConcat([x], [".."] + c);
    JoinConcat([".."], c);
    JoinConcat(a, [x]);
    JoinConcat(a, c);
    assert Join(a) + "/" + (x + "/" + (".." + "/" + Join(c))) == Join(a) + "/" + x + "/../" + Join(c);
  }

  /** A round of the first loop removes two segments. */
  lemma StepUpSegments(segs: seq<string>, i: int)
    requires Segments(segs) && i == FirstFrom(segs, "..", 1) && i >= 2
    ensures Find(Join(segs), UP) >= 0 && StepUp(Join(segs)) == Join(segs[..i - 1] + segs[i + 1..])
    ensures |StepUp(Join(segs))| < |Join(segs)|
  {
    FindSegment(segs, "..");
    assert "/" + ".." + "/" == UP;
    JoinAround(segs, i);
    StepUpString(Join(segs[..i - 1]), segs[i - 1], Join(segs[i + 1..]), Join(segs));
  }

  /** ... and leaves the result of climbing unchanged. */
  lemma ClimbStep(segs: seq<string>, i: int)
    requires Segments(segs) && i == FirstFrom(segs, "..", 1) && i >= 2
    ensures var segs' := segs[..i - 1] + segs[i + 1..];
            Segments(segs') && Climbed(segs') == Climbed(segs)
            && Stuck([segs'[0]], segs'[1..]) == Stuck([segs[0]], segs[1..])
  {
    var segs' := segs[..i - 1] + segs[i + 1..];
    ClimbFrom(segs, i);
    ClimbFrom(segs', i - 1);
    assert segs'[..i - 1] == segs[..i - 1] && segs'[i - 1..] == segs[i + 1..];
    var done, todo := segs[..i], segs[i..];
    assert todo[0] == ".." && todo[1..] == segs[i + 1..] && done[..|done| - 1] == segs[..i - 1];
  }

  /** Climbing may start at the first `..`. */
  lemma ClimbFrom(segs: seq<string>, i: int)
    requires 1 <= i < |segs| && forall j | 1 <= j < i :: segs[j] != ".."
    ensures Climbed(segs) == Climb(segs[..i], segs[i..])
    ensures Stuck([segs[0]], segs[1..]) == Stuck(segs[..i], segs[i..])
  {
    assert segs[1..] == segs[1..i] + segs[i..] && [segs[0]] + segs[1..i] == segs[..i];
    ClimbSkip([segs[0]], segs[1..i], segs[i..]);
  }

  /** When the loop stops, there is nothing left to climb. */
  lemma ClimbRest(segs: seq<string>)
    requires Segments(segs)
    requires var i := FirstFrom(segs, "..", 1); i < 0 || (i == 1 && segs[0] == "")
    ensures Climbed(segs) == segs && !Stuck([segs[0]], segs[1..])
  {
    if FirstFrom(segs, "..", 1) < 0 {
      if |segs| > 1 {
        ClimbFrom(segs, |segs| - 1);
        assert segs[..|segs| - 1] + segs[|segs| - 1..] == segs;
      }
    } else {
      assert segs[1..][0] == "..";
    }
    assert [segs[0]] + segs[1..] == segs;
  }

  /** One round keeps what the path climbs to, and whether it diverges. */
  lemma RoundUp(path: string)
    requires Find(path, UP) > 0
    ensures Diverges(StepUp(path)) == Diverges(path)
    ensures !Diverges(path) ==> Climbed(Split(StepUp(path))) == Climbed(Split(path)) && |StepUp(path)| < |path|
  {
    var segs := Split(path);
    var i := FirstFrom(segs, "..", 1);
    GuardUp(segs);
    if i >= 2 {
      StepUpSegments(segs, i);
      ClimbStep(segs, i);
      SplitJoin(segs[..i - 1] + segs[i + 1..]);
    } else {
      assert segs[1..][0] == "..";
      StuckForever(segs);
    }
  }

  /** The round on the string where there is no segment to take back: the `..` stays. */
  lemma StuckString(x: string, c: string, path: string) returns (c': string)
    requires NoSlash(x) && path == x + "/../" + c && Find(path, UP) == |x|
    ensures StepUp(path) == x + "/../" + c'
  {
    assert path[..|x|] == x && path[|x| + 3..] == "/" + c;
    c' := if c == "" then "" else c[..|c| - 1] + "/" + c;
    if c == "" {
      assert path[..|path| - 1] == x + "/..";
      assert x + "/.." + "/" == x + "/../" + "";
    } else {
      assert path[..|path| - 1] == x + "/../" + c[..|c| - 1];
      assert x + "/../" + c[..|c| - 1] + ("/" + c) == x + "/../" + (c[..|c| - 1] + "/" + c);
    }
  }

  lemma Glue(x: string, p: string, q: string, r: string, y: string)
    ensures x + p + (q + r + y) == x + (p + q + r) + y
  {}

  lemma JoinHead(x: string, rest: seq<string>)
    requires |rest| > 0
    ensures Join([x] + ([".."] + rest)) == x + "/../" + Join(rest)
  {
    var tail := [".."] + rest;
    assert Join(tail) == ".." + "/" + Join(rest) by { JoinConcat([".."], rest); }
    assert Join([x] + tail) == x + "/" + Join(tail) by { JoinConcat([x], tail); }
    Glue(x, "/", "..", "/", Join(rest));
    assert "/" + ".." + "/" == "/../";
  }

  /** A relative path with a `..` behind its first segment diverges. */
  lemma StuckDiverges(x: string, c: string)
    requires NoSlash(x) && x != ""
    ensures Diverges(x + "/../" + c)
  {
    var segs := [x] + ([".."] + Split(c));
    JoinHead(x, Split(c));
    SplitJoin(segs);
    assert segs[1..] == [".."] + Split(c);
  }

  lemma FindBehindFirst(segs: seq<string>)
    requires Segments(segs) && |segs| > 2 && segs[1] == ".."
    ensures Find(Join(segs), UP) == |segs[0]|
  {
    FindSegment(segs, "..");
    assert "/" + ".." + "/" == UP && segs[..1] == [segs[0]];
  }

  /** At a `..` behind the first segment of a relative path, a round keeps that `..` in place. */
  lemma StuckForever(segs: seq<string>)
    requires Segments(segs) && segs[0] != "" && |segs| > 2 && segs[1] == ".."
    ensures Find(Join(segs), UP) >= 0 && Diverges(StepUp(Join(segs)))
  {
    var x, rest := segs[0], segs[2..];
    assert segs == [x] + ([".."] + rest) && NoSlash(x);
    assert Find(Join(segs), UP) == |x| by { FindBehindFirst(segs); }
    assert Join(segs) == x + "/../" + Join(rest) by { JoinHead(x, rest); }
    var c' := StuckString(x, Join(rest), Join(segs));
    StuckDiverges(x, c');
  }

  /** The path after at most `k` rounds of the first loop. */
  function Rounds(path: string, k: nat): (r: string)
    decreases k
  {
    if k == 0 || Find(path, UP) <= 0 then path else Rounds(StepUp(path), k - 1)
  }

  /** After `k` rounds the first loop is over. */
  predicate SettledAfter(path: string, k: nat) { Find(Rounds(path, k), UP) <= 0 }

  lemma DivergesOn(path: string)
    requires Diverges(path)
    ensures Find(path, UP) > 0 && Diverges(StepUp(path))
  {
    var segs := Split(path);
    GuardUp(segs);
    if Find(path, UP) <= 0 { ClimbRest(segs); }
    RoundUp(path);
  }

  /** What every round keeps, all rounds keep. */
  lemma {:induction false} RoundsKeep(kept: iset<string>, path: string, k: nat)
    requires path in kept && forall q {:trigger StepUp(q)} | q in kept && Find(q, UP) > 0 :: StepUp(q) in kept
    ensures Rounds(path, k) in kept
    decreases k
  {
    if k > 0 && Find(path, UP) > 0 { RoundsKeep(kept, StepUp(path), k - 1); }
  }

  lemma RoundsStep(path: string, k: nat)
    requires Find(path, UP) > 0 && k > 0
    ensures Rounds(path, k) == Rounds(StepUp(path), k - 1)
  {}

  lemma NeverSettles(path: string, k: nat)
    requires Diverges(path)
    ensures !SettledAfter(path, k)
  {
    var diverging := iset q | Diverges(q);
    forall q | q in diverging && Find(q, UP) > 0 ensures StepUp(q) in diverging { DivergesOn(q); }
    RoundsKeep(diverging, path, k);
    DivergesOn(Rounds(path, k));
  }

  lemma {:induction false} Settles(path: string) returns (k: nat)
    requires !Diverges(path)
    ensures SettledAfter(path, k)
    decreases |path|
  {
    k := 0;
    if Find(path, UP) > 0 {
      RoundUp(path);
      var j := Settles(StepUp(path));
      k := j + 1;
      RoundsStep(path, k);
    }
  }

  /** The first loop ends on a path exactly when reading its segments never takes back the first one. */
  lemma TerminatesIff(path: string)
    ensures (exists k: nat :: SettledAfter(path, k)) <==> !Diverges(path)
  {
    if Diverges(path) {
      forall k: nat ensures !SettledAfter(path, k) { NeverSettles(path, k); }
    } else {
      var k := Settles(path);
      assert SettledAfter(path, k);
    }
  }

  /** Absolute paths never diverge. */
  lemma AbsoluteTerminates(path: string)
    requires path != "" && path[0] == '/'
    ensures !Diverges(path) && Split(path)[0] == ""
  {
    NotStuck([""], Split(path)[1..]);
  }

  lemma {:induction false} NotStuck(done: seq<string>, todo: seq<string>)
    requires |done| > 0 && done[0] == ""
    ensures !Stuck(done, todo)
    decreases |todo|
  {
    if |todo| > 1 {
      if todo[0] != ".." { NotStuck(done + [todo[0]], todo[1..]); }
      else if |done| >= 2 { NotStuck(done[..|done| - 1], todo[1..]); }
    }
  }

  method ScrubUp(path: string) returns (r: string)
    requires !Diverges(path)
    ensures r == Join(Climbed(Split(path)))
  {
    r := path;
    while Find(r, UP) > 0
      invariant !Diverges(r) && Climbed(Split(r)) == Climbed(Split(path))
      decreases |r|
    {
      RoundUp(r);
      var index := LastSlash(r[..Find(r, UP)]);
      r := Upto(r, index) + r[Find(r, UP) + 3..];
    }
    GuardUp(Split(r));
    ClimbRest(Split(r));
  }

  // The second loop.

  lemma {:induction false} KeepSkip(a: seq<string>, b: seq<string>)
    requires |b| > 0 && forall i | 0 <= i < |a| :: a[i] != "."
    ensures Keep(a + b) == a + Keep(b)
  {
    if a == [] {
      assert a + b == b;
    } else {
      assert (a + b)[1..] == a[1..] + b;
      KeepSkip(a[1..], b);
    }
  }

  lemma GuardHere(segs: seq<string>)
    requires Segments(segs)
    ensures var i := FirstFrom(segs, ".", 1); Find(Join(segs), HERE) == if i < 0 then -1 else |Join(segs[..i])|
    ensures var i := FirstFrom(segs, ".", 1);
            Find(Join(segs), HERE) > 0 <==> i >= 2 || (i == 1 && segs[0] != "")
  {
    var i := FirstFrom(segs, ".", 1);
    FindSegment(segs, ".");
    assert "/" + "." + "/" == HERE;
    if i >= 2 { PrefixGrows(segs, 1, i); }
    if i >= 1 { assert segs[..1] == [segs[0]]; }
  }

  lemma StepHereString(a: string, c: string, path: string)
    requires path == a + "/./" + c && Find(path, HERE) == |a|
    ensures StepHere(path) == a + "/" + c && |StepHere(path)| < |path|
  {}

  /** A round of the second loop removes one segment. */
  lemma StepHereSegments(segs: seq<string>, i: int)
    requires Segments(segs) && i == FirstFrom(segs, ".", 1) && i >= 1
    ensures Find(Join(segs), HERE) >= 0 && StepHere(Join(segs)) == Join(segs[..i] + segs[i + 1..])
    ensures |StepHere(Join(segs))| < |Join(segs)|
  {
    GuardHere(segs);
    JoinAroundHere(segs, i);
    StepHereString(Join(segs[..i]), Join(segs[i + 1..]), Join(segs));
  }

  lemma JoinAroundHere(segs: seq<string>, i: int)
    requires 1 <= i < |segs| - 1 && segs[i] == "."
    ensures Join(segs) == Join(segs[..i]) + "/./" + Join(segs[i + 1..])
    ensures Join(segs[..i] + segs[i + 1..]) == Join(segs[..i]) + "/" + Join(segs[i + 1..])
  {
    assert segs == segs[..i] + (["."] + segs[i + 1..]);
    JoinHere(segs[..i], segs[i + 1..]);
  }

  lemma JoinHere(a: seq<string>, c: seq<string>)
    requires |a| > 0 && |c| > 0
    ensures Join(a + (["."] + c)) == Join(a) + "/./" + Join(c)
    ensures Join(a + c) == Join(a) + "/" + Join(c)
  {
    JoinConcat(a, ["."] + c);
    JoinConcat(["."], c);
    JoinConcat(a, c);
    assert Join(a) + "/" + ("." + "/" + Join(c)) == Join(a) + "/./" + Join(c);
  }

  lemma KeepDot(mid: seq<string>, rest: seq<string>)
    requires |rest| > 0 && forall i | 0 <= i < |mid| :: mid[i] != "."
    ensures Keep(mid + (["."] + rest)) == Keep(mid + rest)
  {
    var todo := ["."] + rest;
    assert todo[0] == "." && todo[1..] == rest;
    assert Keep(todo) == Keep(rest) by { assert [] + Keep(rest) == Keep(rest); }
    KeepSkip(mid, todo);
    KeepSkip(mid, rest);
  }

  lemma DropStep(segs: seq<string>, i: int)
    requires Segments(segs) && i == FirstFrom(segs, ".", 1) && (i >= 2 || (i == 1 && segs[0] != ""))
    ensures var segs' := segs[..i] + segs[i + 1..]; Segments(segs') && DropHere(segs') == DropHere(segs)
  {
    var segs', mid, rest := segs[..i] + segs[i + 1..], segs[1..i], segs[i + 1..];
    assert segs[1..] == mid + (["."] + rest);
    assert segs'[1..] == mid + rest;
    assert Keep(segs[1..]) == Keep(segs'[1..]) by { KeepDot(mid, rest); }
    if i >= 2 { assert segs[1] != "." && segs'[1] == segs[1]; }
  }

  lemma DropRest(segs: seq<string>)
    requires Segments(segs)
    requires var i := FirstFrom(segs, ".", 1); i < 0 || (i == 1 && segs[0] == "")
    ensures DropHere(segs) == segs
  {}

  method ScrubHere(path: string) returns (r: string)
    ensures r == Join(DropHere(Split(path)))
  {
    r := path;
    while Find(r, HERE) > 0
      invariant DropHere(Split(r)) == DropHere(Split(path))
      decreases |r|
    {
      var segs, i := Split(r), FirstFrom(Split(r), ".", 1);
      GuardHere(segs);
      StepHereSegments(segs, i);
      DropStep(segs, i);
      SplitJoin(segs[..i] + segs[i + 1..]);
      var index := Find(r, HERE);
      r := r[..index] + r[index + 2..];
    }
    GuardHere(Split(r));
    DropRest(Split(r));
  }

  /** `scrubPath`, on the paths on which it ends. */
  method ScrubPath(path: string) returns (r: string)
    requires !Diverges(path)
    ensures r == Scrubbed(path)
  {
    var up := ScrubUp(path);
    ClimbSegments([Split(path)[0]], Split(path)[1..]);
    SplitJoin(Climbed(Split(path)));
    r := ScrubHere(up);
    r := Squeeze(r);
  }

  lemma {:induction false} ClimbSegments(done: seq<string>, todo: seq<string>)
    requires Segments(done) && forall i | 0 <= i < |todo| :: NoSlash(todo[i])
    ensures Segments(Climb(done, todo))
    decreases |todo|
  {
    if |todo| > 1 {
      if todo[0] != ".." { ClimbSegments(done + [todo[0]], todo[1..]); }
      else if |done| >= 2 { ClimbSegments(done[..|done| - 1], todo[1..]); }
    }
  }
}
