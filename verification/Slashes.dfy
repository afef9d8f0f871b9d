/** What the last stage of GrIPD's path code does to runs of slashes. */
module Slashes {
  import opened Strings
  import opened Paths

  /** A run of `m` slashes. */
  function Run(m: nat): (s: string)
    ensures |s| == m && forall i | 0 <= i < m :: s[i] == '/'
  {
    seq(m, i => '/')
  }

  predicate StartsRun(s: string) { s != "" && s[0] == '/' }

  /** A run of `m` slashes is halved, rounding up. */
  lemma {:induction false} SqueezeRun(m: nat, rest: string)
    requires !StartsRun(rest)
    ensures Squeeze(Run(m) + rest) == Run((m + 1) / 2) + Squeeze(rest)
  {
    var s := Run(m) + rest;
    if m == 0 {
      assert s == rest && Run(0) + Squeeze(rest) == Squeeze(rest);
    } else if m == 1 {
      assert s[1..] == rest && [s[0]] == Run(1);
      if |s| == 1 { assert Squeeze(rest) == "" && s == Run(1); }
    } else {
      assert s[2..] == Run(m - 2) + rest;
      SqueezeRun(m - 2, rest);
      assert "/" + (Run((m - 1) / 2) + Squeeze(rest)) == Run((m + 1) / 2) + Squeeze(rest);
    }
  }

  /** Any other character stays where it is. */
  lemma SqueezeOther(c: char, rest: string)
    requires c != '/'
    ensures Squeeze([c] + rest) == [c] + Squeeze(rest)
  {
    assert ([c] + rest)[1..] == rest;
  }

  predicate Double(s: string) { |s| >= 2 && ((s[0] == '/' && s[1] == '/') || Double(s[1..])) }

  predicate Triple(s: string) { |s| >= 3 && ((s[0] == '/' && s[1] == '/' && s[2] == '/') || Triple(s[1..])) }

  lemma {:induction false} DoubleOccurs(s: string)
    ensures Double(s) <==> Find(s, "//") >= 0
  {
    if Double(s) {
      var k := DoubleAt(s);
      assert Occurs(s, "//", k);
    } else if Find(s, "//") >= 0 {
      NotDouble(s, Find(s, "//"));
    }
  }

  lemma {:induction false} DoubleAt(s: string) returns (k: nat)
    requires Double(s)
    ensures k + 2 <= |s| && s[k..k + 2] == "//"
  {
    if s[0] == '/' && s[1] == '/' {
      k := 0;
    } else {
      k := DoubleAt(s[1..]);
      assert s[1..][k..k + 2] == s[k + 1..k + 3];
      k := k + 1;
    }
  }

  lemma {:induction false} NotDouble(s: string, k: nat)
    requires k + 2 <= |s| && s[k..k + 2] == "//"
    ensures Double(s)
  {
    if k == 0 {
      assert s[0..2][0] == '/' && s[0..2][1] == '/';
    } else {
      assert s[1..][k - 1..k + 1] == s[k..k + 2];
      NotDouble(s[1..], k - 1);
    }
  }

  lemma {:induction false} TripleAt(s: string) returns (k: nat)
    requires Triple(s)
    ensures k + 3 <= |s| && s[k..k + 3] == "///"
  {
    if s[0] == '/' && s[1] == '/' && s[2] == '/' {
      k := 0;
    } else {
      k := TripleAt(s[1..]);
      assert s[1..][k..k + 3] == s[k + 1..k + 4];
      k := k + 1;
    }
  }

  lemma {:induction false} NotTriple(s: string, k: nat)
    requires k + 3 <= |s| && s[k..k + 3] == "///"
    ensures Triple(s)
  {
    if k == 0 {
      assert s[0..3][0] == '/' && s[0..3][1] == '/' && s[0..3][2] == '/';
    } else {
      assert s[1..][k - 1..k + 2] == s[k..k + 3];
      NotTriple(s[1..], k - 1);
    }
  }

  lemma TripleOccurs(s: string)
    ensures Triple(s) <==> Find(s, "///") >= 0
  {
    if Triple(s) {
      var k := TripleAt(s);
      assert Occurs(s, "///", k);
    } else if Find(s, "///") >= 0 {
      NotTriple(s, Find(s, "///"));
    }
  }

  /** Double slashes are left exactly where there were three in a row. */
  lemma {:induction false} SqueezeDoubles(s: string)
    ensures StartsRun(Squeeze(s)) <==> StartsRun(s)
    ensures Double(Squeeze(s)) <==> Triple(s)
  {
    if |s| >= 2 {
      if s[0] == '/' && s[1] == '/' {
        SqueezeDoubles(s[2..]);
        assert Squeeze(s)[1..] == Squeeze(s[2..]);
        assert s[1..][1..] == s[2..];
      } else {
        SqueezeDoubles(s[1..]);
        assert Squeeze(s)[1..] == Squeeze(s[1..]);
      }
    }
  }

  /** What comes out of the whole code holds a double slash exactly where the last stage was given three in a row. */
  lemma ScrubbedDoubles(path: string)
    ensures Find(Scrubbed(path), "//") >= 0 <==> Find(Join(DropHere(Climbed(Split(path)))), "///") >= 0
  {
    var s := Join(DropHere(Climbed(Split(path))));
    SqueezeDoubles(s);
    DoubleOccurs(Squeeze(s));
    TripleOccurs(s);
  }
}
