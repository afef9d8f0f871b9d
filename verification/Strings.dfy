/** Searching strings, and strings as segments between slashes. */
module Strings {

  /** `sub` stands at position `k` of `s`. */
  predicate Occurs(s: string, sub: string, k: int) {
    0 <= k && k + |sub| <= |s| && s[k..k + |sub|] == sub
  }

  /** The first position of `sub` in `s` from `i` on, or -1. */
  function FindFrom(s: string, sub: string, i: nat): (k: int)
    requires |sub| > 0
    ensures k == -1 || (i <= k && Occurs(s, sub, k))
    ensures forall j | i <= j && Occurs(s, sub, j) :: 0 <= k <= j
    decreases |s| - i
  {
    if i + |sub| > |s| then -1
    else if s[i..i + |sub|] == sub then i
    else FindFrom(s, sub, i + 1)
  }

  /** The first position of `sub` in `s`, or -1. */
  function Find(s: string, sub: string): (k: int)
    requires |sub| > 0
    ensures -1 <= k
    ensures k >= 0 ==> Occurs(s, sub, k)
    ensures forall j | Occurs(s, sub, j) :: 0 <= k <= j
  {
    FindFrom(s, sub, 0)
  }

  /** The last position of a slash in `s`, or -1. */
  function LastSlash(s: string): (k: int)
    ensures -1 <= k < |s|
    ensures k >= 0 ==> s[k] == '/'
    ensures forall j | k < j < |s| :: s[j] != '/'
  {
    if s == "" then -1
    else if s[|s| - 1] == '/' then |s| - 1
    else LastSlash(s[..|s| - 1])
  }

  predicate NoSlash(s: string) {
    forall j | 0 <= j < |s| :: s[j] != '/'
  }

  /** A non-empty list of segments without slashes. */
  predicate Segments(segs: seq<string>) {
    |segs| > 0 && forall i | 0 <= i < |segs| :: NoSlash(segs[i])
  }

  function Join(segs: seq<string>): (s: string)
    requires |segs| > 0
  {
    if |segs| == 1 then segs[0] else segs[0] + "/" + Join(segs[1..])
  }

  function Split(s: string): (segs: seq<string>)
    ensures Segments(segs) && Join(segs) == s
  {
    if s == "" then [""]
    else
      var rest := Split(s[1..]);
      if s[0] == '/' then
        assert ([""] + rest)[1..] == rest;
        [""] + rest
      else
        var segs := [[s[0]] + rest[0]] + rest[1..];
        assert segs[1..] == rest[1..];
        segs
  }

  lemma {:induction false} JoinConcat(a: seq<string>, b: seq<string>)
    requires |a| > 0 && |b| > 0
    ensures Join(a + b) == Join(a) + "/" + Join(b)
  {
    if |a| == 1 {
      assert (a + b)[1..] == b;
    } else {
      assert (a + b)[1..] == a[1..] + b;
      JoinConcat(a[1..], b);
    }
  }

  /** A string determines its segments. */
  lemma {:induction false} SplitJoin(segs: seq<string>)
    requires Segments(segs)
    ensures Split(Join(segs)) == segs
  {
    JoinInjective(Split(Join(segs)), segs);
  }

  lemma {:induction false} JoinInjective(a: seq<string>, b: seq<string>)
    requires Segments(a) && Segments(b) && Join(a) == Join(b)
    ensures a == b
  {
    var s := Join(a);
    assert NoSlash(a[0]) && NoSlash(b[0]);
    if |a| > 1 { FirstSlash(a); }
    if |b| > 1 { FirstSlash(b); }
    if |a| > 1 && |b| > 1 {
      assert s[..|a[0]|] == a[0] && s[..|b[0]|] == b[0];
      assert s[|a[0]| + 1..] == Join(a[1..]) && s[|b[0]| + 1..] == Join(b[1..]);
      JoinInjective(a[1..], b[1..]);
      assert a == [a[0]] + a[1..] && b == [b[0]] + b[1..];
    }
  }

  lemma FirstSlash(a: seq<string>)
    requires Segments(a) && |a| > 1
    ensures |Join(a)| > |a[0]| && Join(a)[|a[0]|] == '/'
    ensures forall j | 0 <= j < |a[0]| :: Join(a)[j] != '/'
  {}

  /** The first inner segment, from position `i` on, that equals `x`; -1 if there is none. */
  function FirstFrom(segs: seq<string>, x: string, i: nat): (k: int)
    ensures k == -1 || (i <= k < |segs| - 1 && segs[k] == x)
    ensures forall j | i <= j < |segs| - 1 && segs[j] == x :: 0 <= k <= j
    decreases |segs| - i
  {
    if i + 1 >= |segs| then -1 else if segs[i] == x then i else FirstFrom(segs, x, i + 1)
  }

  /** An inner segment `x` is an occurrence of `/x/`. */
  lemma SegmentOccurs(segs: seq<string>, x: string, i: nat)
    requires Segments(segs) && 1 <= i < |segs| - 1 && segs[i] == x
    ensures Occurs(Join(segs), "/" + x + "/", |Join(segs[..i])|)
  {
    assert segs == segs[..i] + segs[i..] && segs[i..] == [x] + segs[i + 1..];
    JoinConcat(segs[..i], segs[i..]);
    JoinConcat([x], segs[i + 1..]);
    var a, b, pat := Join(segs[..i]), Join(segs[i + 1..]), "/" + x + "/";
    assert Join(segs) == a + pat + b;
    assert (a + pat + b)[|a|..|a| + |pat|] == pat;
  }

  /** Every occurrence of `/x/` is an inner segment. */
  lemma {:induction false} OccurrenceIsSegment(segs: seq<string>, x: string, k: int) returns (i: nat)
    requires Segments(segs) && NoSlash(x) && Occurs(Join(segs), "/" + x + "/", k)
    ensures 1 <= i < |segs| - 1 && segs[i] == x && k == |Join(segs[..i])|
  {
    var s, pat := Join(segs), "/" + x + "/";
    assert s[k] == pat[0] == '/';
    assert NoSlash(segs[0]);
    FirstSlash(segs);
    var rest, at := Join(segs[1..]), |segs[0]| + 1;
    assert s[at..] == rest;
    assert at <= k + 1;
    if k + 1 == at {
      assert rest[..|x| + 1] == s[at..at + |x| + 1] == pat[1..] == x + "/";
      HeadSegment(segs[1..], x);
      i := 1;
      assert segs[..1] == [segs[0]];
    } else {
      assert rest[k - at..k - at + |pat|] == s[k..k + |pat|];
      var j := OccurrenceIsSegment(segs[1..], x, k - at);
      i := j + 1;
      assert segs[..i] == [segs[0]] + segs[1..][..j];
      assert segs[..i][1..] == segs[1..][..j];
    }
  }

  lemma HeadSegment(segs: seq<string>, x: string)
    requires Segments(segs) && NoSlash(x)
    requires |x| < |Join(segs)| && Join(segs)[..|x| + 1] == x + "/"
    ensures |segs| > 1 && segs[0] == x
  {
    var s := Join(segs);
    assert s[|x|] == (x + "/")[|x|] == '/';
    assert forall j | 0 <= j < |x| :: s[j] == (x + "/")[j] == x[j];
    assert NoSlash(segs[0]);
    FirstSlash(segs);
    assert segs[0] == s[..|x|] == x;
  }

  /** Prefixes of segments grow. */
  lemma PrefixGrows(segs: seq<string>, i: nat, j: nat)
    requires 1 <= i < j <= |segs|
    ensures |Join(segs[..i])| < |Join(segs[..j])|
  {
    assert segs[..j] == segs[..i] + segs[i..j];
    JoinConcat(segs[..i], segs[i..j]);
  }

  /** Searching the string for `/x/` finds the first inner segment `x`. */
  lemma FindSegment(segs: seq<string>, x: string)
    requires Segments(segs) && NoSlash(x)
    ensures var i := FirstFrom(segs, x, 1);
            Find(Join(segs), "/" + x + "/") == if i < 0 then -1 else |Join(segs[..i])|
  {
    var s, pat, i := Join(segs), "/" + x + "/", FirstFrom(segs, x, 1);
    var k := Find(s, pat);
    if k >= 0 {
      var j := OccurrenceIsSegment(segs, x, k);
      SegmentOccurs(segs, x, i);
      if i < j { PrefixGrows(segs, i, j); }
    } else if i >= 0 {
      SegmentOccurs(segs, x, i);
    }
  }
}
