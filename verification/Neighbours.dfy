/** The search for the nearest boids: a bounded insertion sort that yields the true nearest neighbours. */
module Neighbours {
  datatype Vec = Vec(x: real, y: real)

  const MAX_LONG: real := 4294967295.0
  const MAX_NEIGHBORS: nat := 4

  function Sq(a: real): real { a * a }

  function DistSqrToPt(p: Vec, q: Vec): (d: real)
  {
    Sq(p.x - q.x) + Sq(p.y - q.y)
  }

  /** The squared distances from boid `me` to all boids. */
  function Distances(pos: seq<Vec>, me: nat): (dist: seq<real>)
    requires me < |pos|
    ensures |dist| == |pos|
  {
    seq(|pos|, i requires 0 <= i < |pos| => DistSqrToPt(pos[me], pos[i]))
  }

  /** The two parallel arrays of a boid: neighbour numbers and their squared distances. */
  datatype Near = Near(ids: seq<nat>, dists: seq<real>) {
    predicate Sized() { |ids| == |dists| == MAX_NEIGHBORS }
  }

  /** The inner loop: larger distances move down from place `j`, then the new one is put in. */
  function Shift(n: Near, d: real, i: nat, j: nat): (r: Near)
    requires n.Sized() && j < MAX_NEIGHBORS
    ensures r.Sized()
    decreases j
  {
    if j > 0 && d < n.dists[j - 1] then
      Shift(Near(n.ids[j := n.ids[j - 1]], n.dists[j := n.dists[j - 1]]), d, i, j - 1)
    else
      Near(n.ids[j := i], n.dists[j := d])
  }

  /** Boid `i` at distance `d` is offered to the first `k` places. */
  function Offer(n: Near, k: nat, d: real, i: nat): (r: Near)
    requires n.Sized() && 1 <= k <= MAX_NEIGHBORS
    ensures r.Sized()
  {
    if d < n.dists[k - 1] then Shift(n, d, i, k - 1) else n
  }

  /** The outer loop from boid `i` on. */
  function Scan(dist: seq<real>, me: nat, k: nat, n: Near, i: nat): (r: Near)
    requires me < |dist| && n.Sized() && 1 <= k <= MAX_NEIGHBORS && i <= |dist|
    ensures r.Sized()
    decreases |dist| - i
  {
    if i == |dist| then n
    else if i == me then Scan(dist, me, k, n, i + 1)
    else Scan(dist, me, k, Offer(n, k, dist[i], i), i + 1)
  }

  /** The first `k` distances start from the sentinel. */
  function Cleared(n: Near, k: nat): (r: Near)
    requires n.Sized() && k <= MAX_NEIGHBORS
    ensures r.Sized()
  {
    Near(n.ids, seq(MAX_NEIGHBORS, j requires 0 <= j < MAX_NEIGHBORS => if j < k then MAX_LONG else n.dists[j]))
  }

  function FoundNeighbours(dist: seq<real>, me: nat, k: nat, n: Near): (r: Near)
    requires me < |dist| && n.Sized() && 1 <= k <= MAX_NEIGHBORS
    ensures r.Sized()
  {
    Scan(dist, me, k, Cleared(n, k), 0)
  }

  // What the search should find.

  /** Another boid among the first `m`, close enough to be seen at all. */
  predicate Candidate(dist: seq<real>, me: nat, m: nat, b: nat)
    requires me < |dist| && m <= |dist|
  {
    b < m && b != me && dist[b] < 4294967295.0
  }

  /** Closer, or equally close and numbered lower. */
  predicate Closer(dist: seq<real>, a: nat, b: nat)
    requires a < |dist| && b < |dist|
  {
    var da, db := dist[a], dist[b];
    da < db || (da == db && a < b)
  }

  /** `l` lists the `k` nearest candidates, nearest first, or all of them if there are fewer. */
  ghost predicate Nearest(dist: seq<real>, me: nat, m: nat, k: nat, l: seq<nat>)
    requires me < |dist| && m <= |dist|
  {
    && |l| <= k
    && (forall j | 0 <= j < |l| :: Candidate(dist, me, m, l[j]))
    && (forall i, j | 0 <= i < j < |l| :: Closer(dist, l[i], l[j]))
    && (forall b | Candidate(dist, me, m, b) && b !in l :: |l| == k && forall j | 0 <= j < |l| :: Closer(dist, l[j], b))
  }

  /** There is only one such list. */
  lemma NearestUnique(dist: seq<real>, me: nat, m: nat, k: nat, l: seq<nat>, r: seq<nat>)
    requires me < |dist| && m <= |dist| && Nearest(dist, me, m, k, l) && Nearest(dist, me, m, k, r)
    ensures l == r
  {
    NearestPrefix(dist, me, m, k, l, r, if |l| <= |r| then |l| else |r|);
    NoneMissing(dist, me, m, k, l, r);
    NoneMissing(dist, me, m, k, r, l);
  }

  /** A list is no longer than one that starts like it. */
  lemma NoneMissing(dist: seq<real>, me: nat, m: nat, k: nat, l: seq<nat>, r: seq<nat>)
    requires me < |dist| && m <= |dist| && Nearest(dist, me, m, k, l) && Nearest(dist, me, m, k, r)
    requires |l| <= |r| ==> l == r[..|l|]
    ensures |r| <= |l|
  {
    if |l| < k && |l| <= |r| && 0 < |r| {
      var j := |r| - 1;
      assert r[j] in l;
      var i :| 0 <= i < |l| && l[i] == r[j];
      assert l[i] == r[i];
      assert i < j ==> Closer(dist, r[i], r[j]);
    }
  }

  lemma {:induction false} NearestPrefix(dist: seq<real>, me: nat, m: nat, k: nat, l: seq<nat>, r: seq<nat>, c: nat)
    requires me < |dist| && m <= |dist| && Nearest(dist, me, m, k, l) && Nearest(dist, me, m, k, r)
    requires c <= |l| && c <= |r|
    ensures l[..c] == r[..c]
  {
    if c > 0 {
      NearestPrefix(dist, me, m, k, l, r, c - 1);
      NotBefore(dist, me, m, k, l, r, c - 1);
      NotBefore(dist, me, m, k, r, l, c - 1);
      assert l[c - 1] == r[c - 1];
    }
  }

  /** Where two lists first differ, neither has the closer boid. */
  lemma NotBefore(dist: seq<real>, me: nat, m: nat, k: nat, l: seq<nat>, r: seq<nat>, c: nat)
    requires me < |dist| && m <= |dist| && Nearest(dist, me, m, k, l) && Nearest(dist, me, m, k, r)
    requires c < |l| && c < |r| && l[..c] == r[..c]
    ensures !Closer(dist, l[c], r[c])
  {}

  /** The arrays hold the list `l` in their first places, behind it what the places held before. */
  ghost predicate Holds(dist: seq<real>, me: nat, k: nat, start: Near, n: Near, l: seq<nat>)
    requires me < |dist| && n.Sized() && start.Sized() && k <= MAX_NEIGHBORS
  {
    && |l| <= k
    && (forall j | 0 <= j < |l| :: n.ids[j] == l[j] && l[j] < |dist| && n.dists[j] == dist[l[j]])
    && (forall j | |l| <= j < k :: n.ids[j] == start.ids[j - |l|] && n.dists[j] == MAX_LONG)
    && (forall j | k <= j < MAX_NEIGHBORS :: n.ids[j] == start.ids[j] && n.dists[j] == start.dists[j])
  }

  /** Where the inner loop stops. */
  function Place(dists: seq<real>, d: real, j: nat): (p: nat)
    requires j < |dists|
    ensures p <= j && (p > 0 ==> dists[p - 1] <= d) && forall q | p <= q < j :: d < dists[q]
  {
    if j > 0 && d < dists[j - 1] then Place(dists, d, j - 1) else j
  }

  /** In `r` the new boid stands at place `p` and the ones from there to `j` have moved down by one. */
  predicate Shifted(n: Near, d: real, i: nat, p: nat, j: nat, r: Near) {
    && n.Sized() && r.Sized() && p <= j < MAX_NEIGHBORS
    && r.ids[p] == i && r.dists[p] == d
    && (forall q | p < q <= j :: r.ids[q] == n.ids[q - 1] && r.dists[q] == n.dists[q - 1])
    && (forall q | 0 <= q < MAX_NEIGHBORS && (q < p || q > j) :: r.ids[q] == n.ids[q] && r.dists[q] == n.dists[q])
  }

  /** The loop puts the new boid in and moves the ones behind it down by one. */
  lemma {:induction false} ShiftPlaces(n: Near, d: real, i: nat, j: nat)
    requires n.Sized() && j < MAX_NEIGHBORS
    ensures Shifted(n, d, i, Place(n.dists, d, j), j, Shift(n, d, i, j))
    decreases j
  {
    if j > 0 && d < n.dists[j - 1] {
      var m := Near(n.ids[j := n.ids[j - 1]], n.dists[j := n.dists[j - 1]]);
      var p := Place(n.dists, d, j - 1);
      ShiftPlaces(m, d, i, j - 1);
      PlaceSame(n.dists, m.dists, d, j - 1);
      ShiftedOneMore(n, m, d, i, p, j, Shift(m, d, i, j - 1));
    }
  }

  lemma ShiftedOneMore(n: Near, m: Near, d: real, i: nat, p: nat, j: nat, r: Near)
    requires n.Sized() && 0 < j < MAX_NEIGHBORS && m == Near(n.ids[j := n.ids[j - 1]], n.dists[j := n.dists[j - 1]])
    requires Shifted(m, d, i, p, j - 1, r)
    ensures Shifted(n, d, i, p, j, r)
  {}

  lemma {:induction false} PlaceSame(a: seq<real>, b: seq<real>, d: real, j: nat)
    requires j < |a| == |b| && forall q | 0 <= q < j :: a[q] == b[q]
    ensures Place(a, d, j) == Place(b, d, j)
  {}

  /** The list after boid `b` has come in at place `p`. */
  function Grown(l: seq<nat>, k: nat, p: nat, b: nat): (r: seq<nat>)
    requires |l| <= k && p <= |l| && p < k
  {
    l[..p] + [b] + l[p..if |l| < k then |l| else k - 1]
  }

  lemma OfferRefused(dist: seq<real>, me: nat, k: nat, start: Near, n: Near, l: seq<nat>, b: nat)
    requires me < |dist| && b < |dist| && b != me && n.Sized() && start.Sized() && 1 <= k <= MAX_NEIGHBORS
    requires Holds(dist, me, k, start, n, l) && Nearest(dist, me, b, k, l)
    requires n.dists[k - 1] <= dist[b]
    ensures Nearest(dist, me, b + 1, k, l)
  {}

  /** The place found is in the list or right behind it. */
  lemma PlaceInside(dist: seq<real>, me: nat, k: nat, start: Near, n: Near, l: seq<nat>, b: nat, p: nat)
    requires me < |dist| && b < |dist| && n.Sized() && start.Sized() && 1 <= k <= MAX_NEIGHBORS
    requires Holds(dist, me, k, start, n, l) && Nearest(dist, me, b, k, l)
    requires dist[b] < n.dists[k - 1] && p == Place(n.dists, dist[b], k - 1)
    ensures p <= |l| && dist[b] < MAX_LONG && (p > 0 ==> dist[l[p - 1]] <= dist[b])
            && forall q | p <= q < |l| :: dist[b] < dist[l[q]]
  {}

  lemma OfferTaken(dist: seq<real>, me: nat, k: nat, start: Near, n: Near, l: seq<nat>, b: nat, p: nat)
    requires me < |dist| && b < |dist| && b != me && n.Sized() && start.Sized() && 1 <= k <= MAX_NEIGHBORS
    requires Holds(dist, me, k, start, n, l) && Nearest(dist, me, b, k, l)
    requires dist[b] < n.dists[k - 1] && p == Place(n.dists, dist[b], k - 1)
    ensures p <= |l| && Holds(dist, me, k, start, Shift(n, dist[b], b, k - 1), Grown(l, k, p, b))
    ensures Nearest(dist, me, b + 1, k, Grown(l, k, p, b))
  {
    PlaceInside(dist, me, k, start, n, l, b, p);
    ShiftPlaces(n, dist[b], b, k - 1);
    GrownHolds(dist, me, k, start, n, l, b, p, Shift(n, dist[b], b, k - 1));
    GrownNearest(dist, me, k, l, p, b);
  }

  lemma GrownAt(l: seq<nat>, k: nat, p: nat, b: nat)
    requires |l| <= k && p <= |l| && p < k
    ensures var g := Grown(l, k, p, b);
            && |g| == (if |l| < k then |l| + 1 else k) && g[p] == b
            && (forall j | 0 <= j < p :: g[j] == l[j])
            && (forall j | p < j < |g| :: g[j] == l[j - 1])
  {}

  lemma GrownHolds(dist: seq<real>, me: nat, k: nat, start: Near, n: Near, l: seq<nat>, b: nat, p: nat, r: Near)
    requires me < |dist| && b < |dist| && n.Sized() && start.Sized() && 1 <= k <= MAX_NEIGHBORS
    requires Holds(dist, me, k, start, n, l) && p <= |l|
    requires Shifted(n, dist[b], b, p, k - 1, r)
    ensures Holds(dist, me, k, start, r, Grown(l, k, p, b))
  {
    var g := Grown(l, k, p, b);
    GrownAt(l, k, p, b);
    forall j | 0 <= j < |g| ensures r.ids[j] == g[j] && g[j] < |dist| && r.dists[j] == dist[g[j]] {}
    forall j | |g| <= j < k ensures r.ids[j] == start.ids[j - |g|] && r.dists[j] == MAX_LONG {
      assert n.ids[j - 1] == start.ids[j - 1 - |l|];
    }
  }

  lemma GrownNearest(dist: seq<real>, me: nat, k: nat, l: seq<nat>, p: nat, b: nat)
    requires me < |dist| && b < |dist| && b != me && 1 <= k && p <= |l| && p < k && Nearest(dist, me, b, k, l)
    requires dist[b] < MAX_LONG
    requires p > 0 ==> dist[l[p - 1]] <= dist[b]
    requires forall q | p <= q < |l| :: dist[b] < dist[l[q]]
    ensures Nearest(dist, me, b + 1, k, Grown(l, k, p, b))
  {
    var g := Grown(l, k, p, b);
    GrownAt(l, k, p, b);
    forall j | 0 <= j < p ensures Closer(dist, l[j], b) {
      assert j < p - 1 ==> Closer(dist, l[j], l[p - 1]);
    }
    forall q | p <= q < |l| ensures Closer(dist, b, l[q]) {}
    forall j | 0 <= j < |g| ensures Candidate(dist, me, b + 1, g[j]) {
      assert j != p ==> Candidate(dist, me, b, g[j]);
    }
    forall i, j | 0 <= i < j < |g| ensures Closer(dist, g[i], g[j]) {}
    forall c | Candidate(dist, me, b + 1, c) && c !in g
      ensures |g| == k && forall j | 0 <= j < |g| :: Closer(dist, g[j], c)
    {
      GrownMisses(dist, me, k, l, p, b, c);
    }
  }

  lemma GrownKeeps(l: seq<nat>, k: nat, p: nat, b: nat, q: nat)
    requires |l| <= k && p <= |l| && p < k && q < |l| && q < k - 1
    ensures l[q] in Grown(l, k, p, b)
  {}

  /** A boid that is not in the grown list was not in the list, or was its last. */
  lemma GrownMisses(dist: seq<real>, me: nat, k: nat, l: seq<nat>, p: nat, b: nat, c: nat)
    requires me < |dist| && b < |dist| && p <= |l| && p < k && Nearest(dist, me, b, k, l)
    requires forall j | 0 <= j < p :: Closer(dist, l[j], b)
    requires forall q | p <= q < |l| :: Closer(dist, b, l[q])
    requires Candidate(dist, me, b + 1, c) && c !in Grown(l, k, p, b)
    ensures var g := Grown(l, k, p, b);
            |g| == k && forall j | 0 <= j < |g| :: c < |dist| && g[j] < |dist| && Closer(dist, g[j], c)
  {
    var g := Grown(l, k, p, b);
    GrownAt(l, k, p, b);
    assert c != b;
    assert Candidate(dist, me, b, c);
    if c in l {
      var q :| 0 <= q < |l| && l[q] == c;
      if q < k - 1 { GrownKeeps(l, k, p, b, q); }
    }
    assert |l| == k;
    assert Closer(dist, l[k - 1], c) || c == l[k - 1];
  }

  /** The search has found the nearest among the boids it has passed. */
  lemma {:induction false} ScanNearest(dist: seq<real>, me: nat, k: nat, start: Near, n: Near, i: nat, l: seq<nat>)
      returns (r: seq<nat>)
    requires me < |dist| && n.Sized() && start.Sized() && 1 <= k <= MAX_NEIGHBORS && i <= |dist|
    requires Holds(dist, me, k, start, n, l) && Nearest(dist, me, i, k, l)
    ensures Holds(dist, me, k, start, Scan(dist, me, k, n, i), r) && Nearest(dist, me, |dist|, k, r)
    decreases |dist| - i
  {
    if i == |dist| {
      r := l;
    } else {
      var next := ScanStep(dist, me, k, start, n, i, l);
      r := ScanNearest(dist, me, k, start, if i == me then n else Offer(n, k, dist[i], i), i + 1, next);
    }
  }

  lemma ScanStep(dist: seq<real>, me: nat, k: nat, start: Near, n: Near, i: nat, l: seq<nat>) returns (r: seq<nat>)
    requires me < |dist| && n.Sized() && start.Sized() && 1 <= k <= MAX_NEIGHBORS && i < |dist|
    requires Holds(dist, me, k, start, n, l) && Nearest(dist, me, i, k, l)
    ensures Holds(dist, me, k, start, if i == me then n else Offer(n, k, dist[i], i), r)
            && Nearest(dist, me, i + 1, k, r)
  {
    r := l;
    if i == me {
      assert forall b | Candidate(dist, me, i + 1, b) :: Candidate(dist, me, i, b);
      assert forall b | Candidate(dist, me, i, b) :: Candidate(dist, me, i + 1, b);
    } else if dist[i] < n.dists[k - 1] {
      var p := Place(n.dists, dist[i], k - 1);
      OfferTaken(dist, me, k, start, n, l, i, p);
      r := Grown(l, k, p, i);
    } else {
      OfferRefused(dist, me, k, start, n, l, i);
    }
  }

  /** The search finds the nearest neighbours, for every flock and every number of neighbours. */
  lemma FoundNearest(dist: seq<real>, me: nat, k: nat, n: Near) returns (l: seq<nat>)
    requires me < |dist| && n.Sized() && 1 <= k <= MAX_NEIGHBORS
    ensures Nearest(dist, me, |dist|, k, l) && Holds(dist, me, k, n, FoundNeighbours(dist, me, k, n), l)
  {
    l := ScanNearest(dist, me, k, n, Cleared(n, k), 0, []);
  }

  /** With more than `k` boids, all near enough, every place is taken by another boid and no unlisted one is closer
      than the last. */
  lemma FoundFull(dist: seq<real>, me: nat, k: nat, n: Near)
    requires me < |dist| && n.Sized() && 1 <= k <= 4 && k < |dist|
    requires forall i | 0 <= i < |dist| && i != me :: dist[i] < 4294967295.0
    ensures var r := FoundNeighbours(dist, me, k, n);
            && (forall j | 0 <= j < k :: r.ids[j] < |dist| && r.ids[j] != me && r.dists[j] == dist[r.ids[j]])
            && (forall i, j | 0 <= i < j < k :: r.ids[i] != r.ids[j] && r.dists[i] <= r.dists[j])
            && (forall b | 0 <= b < |dist| && b != me && b !in r.ids[..k] :: r.dists[k - 1] <= dist[b])
  {
    var r := FoundNeighbours(dist, me, k, n);
    var l := FoundNearest(dist, me, k, n);
    if |l| < k {
      assert forall i | 0 <= i < |dist| && i != me :: Candidate(dist, me, |dist|, i) && i in l;
      OthersListed(|dist|, me, l);
    }
    assert r.ids[..k] == l;
    forall i, j | 0 <= i < j < k ensures r.ids[i] != r.ids[j] && r.dists[i] <= r.dists[j] {
      assert Closer(dist, l[i], l[j]);
    }
    forall b | 0 <= b < |dist| && b != me && b !in r.ids[..k] ensures r.dists[k - 1] <= dist[b] {
      assert Candidate(dist, me, |dist|, b);
      assert Closer(dist, l[k - 1], b);
    }
  }

  /** A list of all the numbers below `m` but one has at least `m - 1` entries. */
  lemma {:induction false} OthersListed(m: nat, me: nat, l: seq<nat>)
    requires forall i | 0 <= i < m && i != me :: i in l
    ensures |l| >= m - 1
    ensures me >= m ==> |l| >= m
  {
    if m > 0 {
      if m - 1 == me {
        OthersListed(m - 1, me, l);
      } else {
        assert m - 1 in l;
        var j :| 0 <= j < |l| && l[j] == m - 1;
        var r := l[..j] + l[j + 1..];
        forall i | 0 <= i < m - 1 && i != me ensures i in r {
          assert i in l;
          var q :| 0 <= q < |l| && l[q] == i;
          assert q < j ==> r[q] == i;
          assert q > j ==> r[q - 1] == i;
        }
        OthersListed(m - 1, me, r);
      }
    }
  }
}
