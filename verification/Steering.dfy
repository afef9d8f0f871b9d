/** Which way a boid turns: what its neighbours, the points it seeks, the walls and its inertia do to its course. */
module Steering {
  import opened Summation
  import opened Neighbours
  import opened Boids

  function Offset(from: Vec, to: Vec): Vec { Vec(to.x - from.x, to.y - from.y) }

  function Dot(u: Vec, v: Vec): real { Times(u.x, v.x) + Times(u.y, v.y) }

  lemma DotSelf(u: Vec)
    ensures Dot(u, u) == Sq(u.x) + Sq(u.y) && Dot(u, u) >= 0.0
    ensures u != Vec(0.0, 0.0) ==> Dot(u, u) > 0.0
  {
    SqPositive(u.x);
    SqPositive(u.y);
  }

  /** `v` is `h` times `r`. */
  ghost predicate Along(r: Vec, v: Vec, h: real) { Times(h, r.x) == v.x && Times(h, r.y) == v.y }

  lemma DotAlong(r: Vec, v: Vec, h: real)
    requires Along(r, v, h)
    ensures Dot(v, v) == Times(h, Dot(r, v)) && Dot(r, v) == Times(h, Dot(r, r))
  {}

  // Seeking.

  ghost predicate RootAt(root: real -> real, a: real) { a >= 0.0 ==> root(a) >= 0.0 && Sq(root(a)) == a }

  /** `root` is the square root. */
  ghost predicate RealRoot(root: real -> real) { forall a :: RootAt(root, a) }

  lemma RealRoots(s: Settings)
    requires s.RealRoot()
    ensures RealRoot(s.root)
  {
    forall a ensures RootAt(s.root, a) {}
  }

  /** Normalizing keeps the direction. */
  lemma NormalizedAlong(root: real -> real, v: Vec)
    requires RealRoot(root)
    ensures var h := root(Sq(v.x) + Sq(v.y));
            h >= 0.0 && Sq(h) == Sq(v.x) + Sq(v.y) && Along(Normalized(root, v), v, h)
  {
    var h := root(Sq(v.x) + Sq(v.y));
    SqPositive(v.x);
    SqPositive(v.y);
    assert RootAt(root, Sq(v.x) + Sq(v.y));
    if h != 0.0 {
      Undivided(v.x, h);
      Undivided(v.y, h);
    }
  }

  lemma Undivided(x: real, h: real)
    requires h != 0.0
    ensures Times(h, x / h) == x
  {}

  /** The course to a point leads straight to it. */
  lemma SeeksTowards(root: real -> real, me: Pose, point: Vec)
    requires RealRoot(root)
    ensures var v, r := Offset(me.pos, point), SeekPoint(root, me, point);
            Towards(r, v, root(Sq(v.x) + Sq(v.y)), point != me.pos)
  {
    Apart(me.pos, point);
    SeeksOffset(root, me, point);
    NormalizedTowards(root, Offset(me.pos, point));
  }

  lemma SeeksOffset(root: real -> real, me: Pose, point: Vec)
    ensures SeekPoint(root, me, point) == Normalized(root, Offset(me.pos, point))
  {}

  lemma Apart(from: Vec, to: Vec)
    ensures to != from <==> Offset(from, to) != Vec(0.0, 0.0)
  {}

  /** The course `r` leads along `v`, which is `h` long. */
  ghost predicate Towards(r: Vec, v: Vec, h: real, apart: bool) {
    h >= 0.0 && Along(r, v, h) && (apart ==> Dot(r, v) == h && h > 0.0)
  }

  lemma NormalizedTowards(root: real -> real, v: Vec)
    requires RealRoot(root)
    ensures Towards(Normalized(root, v), v, root(Sq(v.x) + Sq(v.y)), v != Vec(0.0, 0.0))
  {
    var r, h := Normalized(root, v), root(Sq(v.x) + Sq(v.y));
    NormalizedAlong(root, v);
    if v != Vec(0.0, 0.0) {
      DotSelf(v);
      AlongDot(r, v, h);
    }
  }

  lemma AlongDot(r: Vec, v: Vec, h: real)
    requires Along(r, v, h) && h >= 0.0 && Sq(h) == Dot(v, v) > 0.0
    ensures Dot(r, v) == h && h > 0.0
  {
    DotAlong(r, v, h);
    SqPositive(h);
    UnitDot(h, Dot(r, v));
  }

  lemma UnitDot(h: real, d: real)
    requires h > 0.0 && Sq(h) == Times(h, d)
    ensures d == h
  {
    assert h * (d - h) == 0.0;
  }

  // Walls.

  /** The point ahead that is tested against the walls. */
  function Nose(s: Settings, me: Pose, speed: real): Vec {
    Vec(me.pos.x + me.dir.x * speed * s.edgeDist, me.pos.y + me.dir.y * speed * s.edgeDist)
  }

  /** The push along one axis, from where the nose is: none between the walls, as strong as the course outside them. */
  ghost predicate PushesIn(nose: real, low: real, high: real, dir: real, push: real) {
    && (low <= nose <= high ==> push == 0.0)
    && (nose < low || nose > high ==> Sq(push) == Sq(dir))
    && (forall inside :: Inwards(push, nose, low, high, inside))
  }

  ghost predicate Inwards(push: real, nose: real, low: real, high: real, inside: real) {
    low <= inside <= high ==> Times(push, inside - nose) >= 0.0
  }

  /** Walls push inwards. */
  lemma WallsPushIn(s: Settings, me: Pose, speed: real)
    ensures var nose, push := Nose(s, me, speed), AvoidWalls(s, me, speed);
            && PushesIn(nose.x, s.flyRect.left, s.flyRect.right, me.dir.x, push.x)
            && PushesIn(nose.y, s.flyRect.top, s.flyRect.bottom, me.dir.y, push.y)
  {
    var nose, push := Nose(s, me, speed), AvoidWalls(s, me, speed);
    PushIn(nose.x, s.flyRect.left, s.flyRect.right, me.dir.x, push.x);
    PushIn(nose.y, s.flyRect.top, s.flyRect.bottom, me.dir.y, push.y);
  }

  lemma PushIn(nose: real, low: real, high: real, dir: real, push: real)
    requires push == if nose < low then Magnitude(dir) else if nose > high then -Magnitude(dir) else 0.0
    ensures PushesIn(nose, low, high, dir, push)
  {
    SameSquare(dir);
    forall inside ensures Inwards(push, nose, low, high, inside) {
      if low <= inside <= high { SameSigns(push, inside - nose); }
    }
  }

  lemma SameSquare(a: real)
    ensures Magnitude(a) >= 0.0 && Sq(Magnitude(a)) == Sq(a) == Sq(-Magnitude(a))
  {}

  lemma SameSigns(a: real, b: real)
    requires (a >= 0.0 && b >= 0.0) || (a <= 0.0 && b <= 0.0) || a == 0.0
    ensures Times(a, b) >= 0.0
  {}

  // The neighbours.

  /** Closer than preferred. */
  predicate Close(s: Settings, near: Near, j: nat)
    requires near.Sized() && j < MAX_NEIGHBORS
  {
    near.dists[j] < s.prefDistSqr
  }

  function Distance(s: Settings, distSqr: real): real {
    if s.root(distSqr) == 0.0 then 0.0000001 else s.root(distSqr)
  }

  /** What a close neighbour does: a push away from it. */
  function Push(s: Settings, me: Pose, other: Pose, distSqr: real): Vec {
    Scale(-(1.0 + s.prefDist / Distance(s, distSqr)), Offset(me.pos, other.pos))
  }

  /** The push leads away from the neighbour, and is as long as its distance and the preferred distance together. */
  lemma PushesAway(s: Settings, me: Pose, other: Pose, distSqr: real)
    requires s.RealRoot() && s.prefDist >= 0.0 && distSqr >= 0.0
    ensures me.pos != other.pos ==> Dot(Push(s, me, other, distSqr), Offset(me.pos, other.pos)) < 0.0
    ensures var push := Push(s, me, other, distSqr);
            distSqr == DistSqrToPt(me.pos, other.pos) > 0.0 ==>
              Sq(push.x) + Sq(push.y) == Sq(s.root(distSqr) + s.prefDist)
  {
    var u := Offset(me.pos, other.pos);
    assert s.root(distSqr) >= 0.0 && Sq(s.root(distSqr)) == distSqr;
    Opposes(u, s.prefDist, Distance(s, distSqr));
    if distSqr == DistSqrToPt(me.pos, other.pos) > 0.0 {
      SqPositive(s.root(distSqr));
      SquareSwap(me.pos, other.pos);
      AsLong(u, s.prefDist, Distance(s, distSqr), distSqr);
    }
  }

  lemma SquareSwap(p: Vec, q: Vec)
    ensures DistSqrToPt(p, q) == Sq(Offset(p, q).x) + Sq(Offset(p, q).y)
  {}

  /** The push for the offset `u`. */
  function Scale(f: real, u: Vec): Vec { Vec(Times(f, u.x), Times(f, u.y)) }

  lemma Opposes(u: Vec, p: real, d: real)
    requires p >= 0.0 && d > 0.0
    ensures u != Vec(0.0, 0.0) ==> Dot(Scale(-(1.0 + p / d), u), u) < 0.0
  {
    Quotient(p, d);
    Scaled(-(1.0 + p / d), u);
    if u != Vec(0.0, 0.0) {
      DotSelf(u);
      NegativeTimes(-(1.0 + p / d), Dot(u, u));
    }
  }

  lemma AsLong(u: Vec, p: real, d: real, a: real)
    requires p >= 0.0 && d > 0.0 && Sq(d) == a == Sq(u.x) + Sq(u.y)
    ensures var v := Scale(-(1.0 + p / d), u); Sq(v.x) + Sq(v.y) == Sq(d + p)
  {
    Quotient(p, d);
    Scaled(-(1.0 + p / d), u);
    Strength(p / d, d, p, a);
  }

  lemma Quotient(a: real, d: real)
    requires a >= 0.0 && d > 0.0
    ensures a / d >= 0.0 && (a / d) * d == a
  {}

  lemma Scaled(f: real, u: Vec)
    ensures var v := Scale(f, u);
            Dot(v, u) == Times(f, Dot(u, u)) && Sq(v.x) + Sq(v.y) == Times(Sq(f), Sq(u.x) + Sq(u.y))
  {}

  lemma NegativeTimes(f: real, a: real)
    requires f < 0.0 && a > 0.0
    ensures Times(f, a) < 0.0
  {}

  lemma Strength(q: real, d: real, p: real, a: real)
    requires q * d == p && Sq(d) == a
    ensures Times(Sq(-(1.0 + q)), a) == Sq(d + p)
  {
    assert d + p == (1.0 + q) * d;
    assert Sq((1.0 + q) * d) == Sq(1.0 + q) * Sq(d);
    assert Sq(-(1.0 + q)) == Sq(1.0 + q);
  }

  /** The pose of neighbour `j`. */
  function Other(poses: seq<Pose>, near: Near, j: int): Pose
    requires near.Sized() && 0 <= j < MAX_NEIGHBORS && forall q | 0 <= q < MAX_NEIGHBORS :: near.ids[q] < |poses|
  {
    poses[near.ids[j]]
  }

  ghost predicate Listed(poses: seq<Pose>, near: Near) {
    near.Sized() && forall q | 0 <= q < MAX_NEIGHBORS :: near.ids[q] < |poses|
  }

  /** The pushes and the directions of the neighbours, one after the other. */
  function Pushes(s: Settings, poses: seq<Pose>, me: Pose, near: Near): (v: int -> Vec)
    requires near.Sized() && forall q | 0 <= q < MAX_NEIGHBORS :: near.ids[q] < |poses|
  {
    j => if 0 <= j < MAX_NEIGHBORS && Close(s, near, j) then Push(s, me, Other(poses, near, j), near.dists[j])
         else Vec(0.0, 0.0)
  }

  function Courses(poses: seq<Pose>, near: Near): (v: int -> Vec)
    requires near.Sized() && forall q | 0 <= q < MAX_NEIGHBORS :: near.ids[q] < |poses|
  {
    j => if 0 <= j < MAX_NEIGHBORS then Other(poses, near, j).dir else Vec(0.0, 0.0)
  }

  function XOf(v: int -> Vec): int -> real { j => v(j).x }

  function YOf(v: int -> Vec): int -> real { j => v(j).y }

  function SumOf(lo: int, hi: int, v: int -> Vec): Vec { Vec(Sum(lo, hi, XOf(v)), Sum(lo, hi, YOf(v))) }

  function Plus(u: Vec, v: Vec): Vec { Vec(u.x + v.x, u.y + v.y) }

  lemma SumFirst(lo: int, hi: int, v: int -> Vec)
    requires lo < hi
    ensures SumOf(lo, hi, v) == Plus(v(lo), SumOf(lo + 1, hi, v))
  {
    SumSplit(lo, lo + 1, hi, XOf(v));
    SumSplit(lo, lo + 1, hi, YOf(v));
    assert Sum(lo, lo + 1, XOf(v)) == Sum(lo, lo, XOf(v)) + XOf(v)(lo);
    assert Sum(lo, lo + 1, YOf(v)) == Sum(lo, lo, YOf(v)) + YOf(v)(lo);
  }

  /** The places from `lo` to `hi` where `p` holds. */
  function Where(p: int -> bool, lo: nat, hi: nat): (c: set<nat>) { set j: nat | lo <= j < hi && p(j) }

  lemma WhereFirst(p: int -> bool, lo: nat, hi: nat)
    requires lo < hi
    ensures |Where(p, lo, hi)| == |Where(p, lo + 1, hi)| + if p(lo) then 1 else 0
  {
    var rest := Where(p, lo + 1, hi);
    assert Where(p, lo, hi) == if p(lo) then rest + {lo} else rest;
  }

  function IsClose(s: Settings, near: Near): int -> bool
    requires near.Sized()
  {
    j => 0 <= j < MAX_NEIGHBORS && Close(s, near, j)
  }

  /** The close ones among the neighbours. */
  function CloseOnes(s: Settings, near: Near): (c: set<nat>)
    requires s.Valid() && near.Sized()
  {
    if s.numNeighbors <= 0 then {} else Where(IsClose(s, near), 0, s.numNeighbors)
  }

  /** One round of the loop over the neighbours. */
  lemma SteerByAdds(s: Settings, me: Pose, other: Pose, distSqr: real, st: Steer)
    requires s.Valid()
    ensures var r := SteerBy(s, me, other, distSqr, st);
            && r.follow == Plus(st.follow, other.dir)
            && r.total == (if distSqr < s.prefDistSqr then Plus(st.total, Push(s, me, other, distSqr)) else st.total)
            && r.numClose == st.numClose + if distSqr < s.prefDistSqr then 1 else 0
  {
    if distSqr < s.prefDistSqr {
      var u, q := Offset(me.pos, other.pos), s.prefDist / Distance(s, distSqr);
      MinusTwice(st.total.x, u.x, q);
      MinusTwice(st.total.y, u.y, q);
    }
  }

  lemma MinusTwice(t: real, u: real, q: real)
    ensures t - u - u * q == t + Times(-(1.0 + q), u)
  {}

  // The loop, as rounds of any step: what holds of each round holds of the whole.

  function Folded(step: (int, Steer) -> Steer, j: int, k: int, st: Steer): Steer
    decreases k - j
  {
    if j >= k then st else Folded(step, j + 1, k, step(j, st))
  }

  function Round(s: Settings, poses: seq<Pose>, me: Pose, near: Near): (int, Steer) -> Steer
    requires s.Valid() && near.Sized() && forall q | 0 <= q < MAX_NEIGHBORS :: near.ids[q] < |poses|
  {
    (j, st) => if 0 <= j < MAX_NEIGHBORS then SteerBy(s, me, Other(poses, near, j), near.dists[j], st) else st
  }

  lemma {:induction false} SteeredFolded(s: Settings, poses: seq<Pose>, me: Pose, near: Near, j: nat, st: Steer)
    requires s.Valid() && Listed(poses, near) && j <= s.numNeighbors
    ensures Steered(s, poses, me, near, j, st) == Folded(Round(s, poses, me, near), j, s.numNeighbors, st)
    decreases s.numNeighbors - j
  {
    if j < s.numNeighbors {
      SteeredFolded(s, poses, me, near, j + 1, Round(s, poses, me, near)(j, st));
    }
  }

  /** A round adds a course and a push, and counts if the neighbour is close. */
  ghost predicate Adds(step: (int, Steer) -> Steer, courses: int -> Vec, pushes: int -> Vec, close: int -> bool, j: int,
      st: Steer) {
    var r := step(j, st);
    && r.follow == Plus(st.follow, courses(j)) && r.total == Plus(st.total, pushes(j))
    && r.numClose == st.numClose + if close(j) then 1 else 0
  }

  lemma {:induction false} FoldedSums(step: (int, Steer) -> Steer, courses: int -> Vec, pushes: int -> Vec,
      close: int -> bool, j: nat, k: nat, st: Steer)
    requires j <= k && forall q, u | 0 <= q < k :: Adds(step, courses, pushes, close, q, u)
    ensures var r := Folded(step, j, k, st);
            && r.follow == Plus(st.follow, SumOf(j, k, courses)) && r.total == Plus(st.total, SumOf(j, k, pushes))
            && r.numClose == st.numClose + |Where(close, j, k)|
    decreases k - j
  {
    if j == k {
      assert Where(close, j, k) == {};
    } else {
      assert Adds(step, courses, pushes, close, j, st);
      FoldedSums(step, courses, pushes, close, j + 1, k, step(j, st));
      SumFirst(j, k, courses);
      SumFirst(j, k, pushes);
      WhereFirst(close, j, k);
    }
  }

  lemma RoundAdds(s: Settings, poses: seq<Pose>, me: Pose, near: Near, j: nat, st: Steer)
    requires s.Valid() && Listed(poses, near) && j < MAX_NEIGHBORS
    ensures Adds(Round(s, poses, me, near), Courses(poses, near), Pushes(s, poses, me, near), IsClose(s, near), j, st)
  {
    SteerByAdds(s, me, Other(poses, near, j), near.dists[j], st);
  }

  /** The whole loop adds up all pushes and all directions, and counts the close ones. */
  lemma SteeredSums(s: Settings, poses: seq<Pose>, me: Pose, near: Near, st: Steer)
    requires s.Valid() && s.numNeighbors > 0 && Listed(poses, near)
    ensures var r, k := Steered(s, poses, me, near, 0, st), s.numNeighbors;
            && r.follow == Plus(st.follow, SumOf(0, k, Courses(poses, near)))
            && r.total == Plus(st.total, SumOf(0, k, Pushes(s, poses, me, near)))
            && r.numClose == st.numClose + |CloseOnes(s, near)|
  {
    var step, courses, pushes := Round(s, poses, me, near), Courses(poses, near), Pushes(s, poses, me, near);
    forall q, u | 0 <= q < s.numNeighbors ensures Adds(step, courses, pushes, IsClose(s, near), q, u) {
      RoundAdds(s, poses, me, near, q, u);
    }
    SteeredFolded(s, poses, me, near, 0, st);
    FoldedSums(step, courses, pushes, IsClose(s, near), 0, s.numNeighbors, st);
  }

  /**
   The advice of the neighbours: away from the close ones, by the mean of their pushes, and along with
   all, in the direction of the sum of their courses.
   */
  lemma AdviceIsMean(s: Settings, poses: seq<Pose>, me: Pose, near: Near, speed: real)
    requires s.Valid() && s.RealRoot() && s.numNeighbors > 0 && Listed(poses, near)
    ensures var a, k := NextAdvice(s, poses, me, near, speed), s.numNeighbors;
            var close := |CloseOnes(s, near)|;
            && (close > 0 ==> Along(a.avoid, SumOf(0, k, Pushes(s, poses, me, near)), close as real))
            && (close == 0 ==> a.avoid == Vec(0.0, 0.0) && a.follow == SumOf(0, k, Courses(poses, near)))
            && (close > 0 ==> a.follow == Normalized(s.root, SumOf(0, k, Courses(poses, near))))
  {
    var st := Steered(s, poses, me, near, 0, NO_STEER.(speed := speed));
    SteeredSums(s, poses, me, near, NO_STEER.(speed := speed));
    MeanOf(st.total, st.numClose);
  }

  lemma MeanOf(total: Vec, n: nat)
    ensures n > 0 ==> Along(Vec(total.x / n as real, total.y / n as real), total, n as real)
  {
    if n > 0 {
      Undivided(total.x, n as real);
      Undivided(total.y, n as real);
    }
  }

  /** With a single close neighbour a boid is told to fly away from it. */
  lemma AvoidsOne(s: Settings, poses: seq<Pose>, me: Pose, near: Near, speed: real, j: nat)
    requires s.Valid() && s.RealRoot() && s.prefDist >= 0.0 && Listed(poses, near) && j < s.numNeighbors
    requires CloseOnes(s, near) == {j} && near.dists[j] >= 0.0
    ensures var a, other := NextAdvice(s, poses, me, near, speed), Other(poses, near, j);
            && a.avoid == Push(s, me, other, near.dists[j])
            && (other.pos != me.pos ==> Dot(a.avoid, Offset(me.pos, other.pos)) < 0.0)
  {
    AdviceIsMean(s, poses, me, near, speed);
    SinglePush(s, poses, me, near, j);
    PushesAway(s, me, Other(poses, near, j), near.dists[j]);
  }

  lemma SinglePush(s: Settings, poses: seq<Pose>, me: Pose, near: Near, j: nat)
    requires s.Valid() && Listed(poses, near) && j < s.numNeighbors && CloseOnes(s, near) == {j}
    ensures SumOf(0, s.numNeighbors, Pushes(s, poses, me, near)) == Push(s, me, Other(poses, near, j), near.dists[j])
  {
    var k, pushes := s.numNeighbors, Pushes(s, poses, me, near);
    assert j in CloseOnes(s, near);
    forall i | 0 <= i < k && i != j ensures pushes(i) == Vec(0.0, 0.0) {
      assert i !in CloseOnes(s, near);
    }
    SumSingle(0, k, j, XOf(pushes));
    SumSingle(0, k, j, YOf(pushes));
  }

  // Ahead or behind.

  /**
   What counts as in front, for a boid that flies neither level nor upright: a line through it at right
   angles to its course mirrored at a diagonal, not to its course.
   */
  lemma InFrontMirrored(s: Settings, me: Pose, other: Vec)
    requires me.dir.x != 0.0 && me.dir.y != 0.0
    ensures var side := Times(Times(me.dir.x, me.dir.y), Dot(Offset(me.pos, other), Vec(me.dir.y, me.dir.x)));
            InFront(s, me, other) <==> side > 0.0 || (side == 0.0 && me.dir.x > 0.0)
  {
    var grad := -me.dir.y / me.dir.x;
    var intercept := me.pos.y - grad * me.pos.x;
    var u := Offset(me.pos, other);
    GradNonzero(me.dir);
    CrossLine(grad, me.pos.x, me.pos.y, other.x, other.y);
    LineSide(me.dir.x, me.dir.y, grad, u.x, u.y);
  }

  lemma GradNonzero(d: Vec)
    requires d.x != 0.0 && d.y != 0.0
    ensures -d.y / d.x != 0.0
  {
    assert (-d.y / d.x) * d.x == -d.y;
  }

  /** Right of the line with gradient `g` through `(a, b)`. */
  lemma CrossLine(g: real, a: real, b: real, x: real, y: real)
    requires g != 0.0
    ensures x >= (y - (b - g * a)) / g <==> x - a >= (y - b) / g
  {
    assert (y - (b - g * a)) / g == (y - b) / g + a by {
      assert ((y - b) / g + a) * g == y - b + a * g;
    }
  }

  lemma LineSide(dx: real, dy: real, g: real, ux: real, uy: real)
    requires dx != 0.0 && dy != 0.0 && g == -dy / dx
    ensures g != 0.0
    ensures var side := Times(Times(dx, dy), Times(ux, dy) + Times(uy, dx));
            && (dx > 0.0 ==> (ux >= uy / g <==> side >= 0.0))
            && (dx < 0.0 ==> (ux < uy / g <==> side > 0.0))
  {
    GradNonzero(Vec(dx, dy));
    var q := uy / g;
    Undo(-dy, dx);
    Undo(uy, g);
    OnLine(q, g, dx, dy, uy);
    SideIs(q, dx, dy, ux, uy);
    SqPositive(dy);
    if dx > 0.0 { SideSign(ux - q, dx, Sq(dy)); } else { SideSign(q - ux, -dx, Sq(dy)); }
  }

  lemma Undo(a: real, b: real)
    requires b != 0.0
    ensures (a / b) * b == a
  {}

  lemma OnLine(q: real, g: real, dx: real, dy: real, uy: real)
    requires g * dx == -dy && q * g == uy
    ensures q * dy == -(uy * dx)
  {
    assert q * (g * dx) == (q * g) * dx;
  }

  lemma SideIs(q: real, dx: real, dy: real, ux: real, uy: real)
    requires q * dy == -(uy * dx)
    ensures Times(Times(dx, dy), Times(ux, dy) + Times(uy, dx)) == Triple(ux - q, dx, Sq(dy))
    ensures Times(Times(dx, dy), Times(ux, dy) + Times(uy, dx)) == Triple(q - ux, -dx, Sq(dy))
  {
    assert ux * dy + uy * dx == (ux - q) * dy;
    assert dx * dy * ((ux - q) * dy) == (ux - q) * dx * (dy * dy);
  }

  lemma SideSign(a: real, b: real, c: real)
    requires b > 0.0 && c > 0.0
    ensures Triple(a, b, c) > 0.0 <==> a > 0.0
    ensures Triple(a, b, c) >= 0.0 <==> a >= 0.0
  {}

  function Triple(a: real, b: real, c: real): real { a * b * c }

  /**
   Being in front by the course itself, off the line at right angles to it, comes out the same for every
   place of the other boid exactly when the course is a diagonal.
   */
  lemma InFrontIff(s: Settings, me: Pose)
    requires me.dir.x != 0.0 && me.dir.y != 0.0
    ensures (forall other :: FrontAgrees(s, me, other)) <==> Sq(me.dir.x) == Sq(me.dir.y)
  {
    var d := me.dir;
    if Sq(d.x) == Sq(d.y) {
      forall other ensures FrontAgrees(s, me, other) {
        InFrontMirrored(s, me, other);
        Diagonal(d, Offset(me.pos, other));
      }
    } else {
      var u := Misjudged(d);
      var other := Vec(me.pos.x + u.x, me.pos.y + u.y);
      assert Offset(me.pos, other) == u;
      InFrontMirrored(s, me, other);
      assert !FrontAgrees(s, me, other);
    }
  }

  ghost predicate FrontAgrees(s: Settings, me: Pose, other: Vec) {
    var ahead := Dot(Offset(me.pos, other), me.dir);
    ahead != 0.0 ==> (InFront(s, me, other) <==> ahead > 0.0)
  }

  function Side(d: Vec, u: Vec): real { Times(Times(d.x, d.y), Dot(u, Vec(d.y, d.x))) }

  lemma Diagonal(d: Vec, u: Vec)
    requires d.x != 0.0 && d.y != 0.0 && Sq(d.x) == Sq(d.y)
    ensures Side(d, u) > 0.0 <==> Dot(u, d) > 0.0
    ensures Side(d, u) == 0.0 <==> Dot(u, d) == 0.0
  {
    assert (d.x - d.y) * (d.x + d.y) == 0.0;
    ZeroProduct(d.x - d.y, d.x + d.y);
    SideOf(d.x, Dot(u, d));
    assert Side(d, u) == Times(Sq(d.x), Dot(u, d)) by {
      if d.x == d.y { SameDiagonal(d.x, u); } else { OtherDiagonal(d.x, u); }
    }
  }

  lemma ZeroProduct(a: real, b: real)
    requires a * b == 0.0
    ensures a == 0.0 || b == 0.0
  {}

  lemma SideOf(a: real, b: real)
    requires a != 0.0
    ensures Times(Sq(a), b) > 0.0 <==> b > 0.0
    ensures Times(Sq(a), b) == 0.0 <==> b == 0.0
  {
    SqPositive(a);
  }

  lemma SameDiagonal(a: real, u: Vec)
    ensures Side(Vec(a, a), u) == Times(Sq(a), Dot(u, Vec(a, a)))
  {}

  lemma OtherDiagonal(a: real, u: Vec)
    ensures Side(Vec(a, -a), u) == Times(Sq(a), Dot(u, Vec(a, -a)))
  {}

  /** A place ahead of a course that is no diagonal, on the wrong side of the mirrored line. */
  lemma Misjudged(d: Vec) returns (u: Vec)
    requires d.x != 0.0 && d.y != 0.0 && Sq(d.x) != Sq(d.y)
    ensures Dot(u, d) > 0.0 && Side(d, u) < 0.0
  {
    var p := Times(d.x, d.y);
    var r := Times(p, Sq(d.x) - Sq(d.y));
    NonzeroTimes(d.x, d.y);
    NonzeroTimes(p, Sq(d.x) - Sq(d.y));
    var b := (2.0 * Sq(p) + 1.0) / r;
    u := Vec(d.x + Times(b, d.y), d.y - Times(b, d.x));
    Undo(2.0 * Sq(p) + 1.0, r);
    AheadOf(d, b);
    SqPositive(d.x);
    SqPositive(d.y);
  }

  lemma NonzeroTimes(a: real, b: real)
    requires a != 0.0 && b != 0.0
    ensures Times(a, b) != 0.0
  {}

  lemma AheadOf(d: Vec, b: real)
    ensures var u := Vec(d.x + Times(b, d.y), d.y - Times(b, d.x));
            && Dot(u, d) == Sq(d.x) + Sq(d.y)
            && Side(d, u) == 2.0 * Sq(Times(d.x, d.y)) - b * Times(Times(d.x, d.y), Sq(d.x) - Sq(d.y))
  {}

  /** A course two to the right and one up: a boid ahead of it counts as behind. */
  lemma InFrontMisses(s: Settings, me: Pose, other: Vec)
    requires me == Pose(Vec(0.0, 0.0), Vec(2.0, 1.0)) && other == Vec(10.0, -19.0)
    ensures Dot(Offset(me.pos, other), me.dir) == 1.0 && InFront(s, me, other) == false
  {
    OnOtherSide(s, me, other, Side(me.dir, Offset(me.pos, other)));
  }

  lemma OnOtherSide(s: Settings, me: Pose, other: Vec, side: real)
    requires me.dir.x != 0.0 && me.dir.y != 0.0 && side == Side(me.dir, Offset(me.pos, other)) && side < 0.0
    ensures InFront(s, me, other) == false
  {
    InFrontMirrored(s, me, other);
  }

  /** An upright course compares heights. */
  lemma InFrontUpright(s: Settings, me: Pose, other: Vec)
    requires me.dir.x == 0.0 && me.dir.y != 0.0
    ensures InFront(s, me, other) <==> Dot(Offset(me.pos, other), me.dir) > 0.0
  {
    SameSign(other.y - me.pos.y, me.dir.y);
  }

  lemma SameSign(a: real, b: real)
    requires b != 0.0
    ensures Times(a, b) > 0.0 <==> (if b > 0.0 then a > 0.0 else a < 0.0)
  {}

  // Speed.

  /** A boid slows down by `rate` for a neighbour in front or close, and speeds up by as much for both or neither. */
  function Slows(s: Settings, poses: seq<Pose>, me: Pose, near: Near): int -> bool
    requires near.Sized() && forall q | 0 <= q < MAX_NEIGHBORS :: near.ids[q] < |poses|
  {
    j => 0 <= j < MAX_NEIGHBORS && InFront(s, me, Other(poses, near, j).pos) != Close(s, near, j)
  }

  function Power(a: real, e: nat): real { if e == 0 then 1.0 else Times(a, Power(a, e - 1)) }

  /** Of `n` neighbours `slow` slow the boid down by `rate` each, and the others speed it up by as much. */
  ghost predicate Paced(v: real, w: real, rate: real, n: int, slow: nat) {
    slow <= n && Times(w, Power(rate, n - slow)) == Times(v, Power(rate, slow))
  }

  ghost predicate Paces(step: (int, Steer) -> Steer, rate: real, slows: int -> bool, j: int, st: Steer) {
    if slows(j) then step(j, st).speed == Times(st.speed, rate) else Times(step(j, st).speed, rate) == st.speed
  }

  lemma {:induction false} FoldedSpeed(step: (int, Steer) -> Steer, rate: real, slows: int -> bool, j: nat, k: nat,
      st: Steer)
    requires j <= k && forall q, u | 0 <= q < k :: Paces(step, rate, slows, q, u)
    ensures Paced(st.speed, Folded(step, j, k, st).speed, rate, k - j, |Where(slows, j, k)|)
    decreases k - j
  {
    if j == k {
      assert Where(slows, j, k) == {};
    } else {
      assert Paces(step, rate, slows, j, st);
      FoldedSpeed(step, rate, slows, j + 1, k, step(j, st));
      WhereFirst(slows, j, k);
      PacedOn(st.speed, step(j, st).speed, Folded(step, j, k, st).speed, rate, k - j - 1, |Where(slows, j + 1, k)|,
              slows(j));
    }
  }

  lemma RoundPaces(s: Settings, poses: seq<Pose>, me: Pose, near: Near, j: nat, st: Steer)
    requires s.Valid() && s.accelFactor != 0.0 && Listed(poses, near) && j < MAX_NEIGHBORS
    ensures Paces(Round(s, poses, me, near), s.accelFactor / 100.0, Slows(s, poses, me, near), j, st)
  {
    Undo(st.speed, s.accelFactor / 100.0);
  }

  /** The speed that the neighbours ask for. */
  lemma AdviceSpeed(s: Settings, poses: seq<Pose>, me: Pose, near: Near, speed: real)
    requires s.Valid() && s.numNeighbors > 0 && s.accelFactor != 0.0 && Listed(poses, near)
    ensures Paced(speed, NextAdvice(s, poses, me, near, speed).speed, s.accelFactor / 100.0, s.numNeighbors,
                  |Where(Slows(s, poses, me, near), 0, s.numNeighbors)|)
  {
    var step, rate, slows := Round(s, poses, me, near), s.accelFactor / 100.0, Slows(s, poses, me, near);
    forall q, u | 0 <= q < s.numNeighbors ensures Paces(step, rate, slows, q, u) {
      RoundPaces(s, poses, me, near, q, u);
    }
    SteeredFolded(s, poses, me, near, 0, NO_STEER.(speed := speed));
    FoldedSpeed(step, rate, slows, 0, s.numNeighbors, NO_STEER.(speed := speed));
  }

  lemma PacedOn(v: real, v': real, w: real, rate: real, n: nat, slow: nat, slows: bool)
    requires Paced(v', w, rate, n, slow) && if slows then v' == Times(v, rate) else Times(v', rate) == v
    ensures Paced(v, w, rate, n + 1, if slows then slow + 1 else slow)
  {
    if slows { Slowed(rate, v, slow); } else { Sped(w, rate, n - slow, v', v, slow); }
  }

  lemma Slowed(rate: real, v: real, e: nat)
    ensures Times(Times(v, rate), Power(rate, e)) == Times(v, Power(rate, e + 1))
  {}

  lemma Sped(w: real, rate: real, e: nat, v': real, v: real, f: nat)
    requires Times(v', rate) == v && Times(w, Power(rate, e)) == Times(v', Power(rate, f))
    ensures Times(w, Power(rate, e + 1)) == Times(v, Power(rate, f))
  {
    assert w * (rate * Power(rate, e)) == rate * (w * Power(rate, e));
    assert (v' * rate) * Power(rate, f) == rate * (v' * Power(rate, f));
  }

  // One boid, one step.

  /** All pulls on a boid, each with its weight. */
  function Pull(s: Settings, me: Pose, speed: real, center: Vec, a: Advice): Vec {
    Plus(Scale(s.centerWeight, SeekPoint(s.root, me, center)),
      Plus(Scale(s.attractWeight, SeekPoint(s.root, me, s.attractPt)),
        Plus(Scale(s.matchWeight, a.follow),
          Plus(Scale(s.avoidWeight, a.avoid), Scale(s.wallsWeight, AvoidWalls(s, me, speed))))))
  }

  /** The course `w` carries on by inertia and gives way to the pulls by its inverse. */
  ghost predicate Mixes(s: Settings, dir: Vec, pull: Vec, w: Vec) {
    Scale(s.inertiaFactor, w) == Plus(Scale(Sq(s.inertiaFactor), dir), pull)
  }

  lemma BlendMixes(s: Settings, was: real, c: real, t: real, f: real, a: real, w: real)
    requires s.Valid()
    ensures Times(s.inertiaFactor, Blend(s, was, c, t, f, a, w))
         == Times(Sq(s.inertiaFactor), was)
            + (Times(s.centerWeight, c) + (Times(s.attractWeight, t)
              + (Times(s.matchWeight, f) + (Times(s.avoidWeight, a) + Times(s.wallsWeight, w)))))
  {
    var pull := s.centerWeight * c + s.attractWeight * t + s.matchWeight * f + s.avoidWeight * a + s.wallsWeight * w;
    MixOne(s.inertiaFactor, was, pull);
  }

  lemma MixOne(i: real, was: real, pull: real)
    requires i != 0.0
    ensures Times(i, i * was + pull / i) == Times(Sq(i), was) + pull
  {
    Undo(pull, i);
  }

  /** The new course is the mixture of the old one and the pulls, normalized. */
  lemma NextDirMixes(s: Settings, me: Pose, speed: real, center: Vec, a: Advice) returns (w: Vec, h: real)
    requires s.Valid() && s.RealRoot()
    ensures h >= 0.0 && Sq(h) == Sq(w.x) + Sq(w.y) && Along(NextDir(s, me, speed, center, a), w, h)
    ensures Mixes(s, me.dir, Pull(s, me, speed, center, a), w)
  {
    var c, t, v := SeekPoint(s.root, me, center), SeekPoint(s.root, me, s.attractPt), AvoidWalls(s, me, speed);
    w := Vec(Blend(s, me.dir.x, c.x, t.x, a.follow.x, a.avoid.x, v.x),
             Blend(s, me.dir.y, c.y, t.y, a.follow.y, a.avoid.y, v.y));
    h := s.root(Sq(w.x) + Sq(w.y));
    RealRoots(s);
    NormalizedAlong(s.root, w);
    BlendMixes(s, me.dir.x, c.x, t.x, a.follow.x, a.avoid.x, v.x);
    BlendMixes(s, me.dir.y, c.y, t.y, a.follow.y, a.avoid.y, v.y);
  }

  /** A boid that nothing pulls keeps its course. */
  lemma FliesStraight(s: Settings, me: Pose, speed: real, center: Vec, a: Advice)
    requires s.Valid() && s.RealRoot() && s.inertiaFactor > 0.0 && Dot(me.dir, me.dir) == 1.0
    requires s.centerWeight == s.attractWeight == s.matchWeight == s.avoidWeight == s.wallsWeight == 0.0
    ensures NextDir(s, me, speed, center, a) == me.dir
  {
    var w, h := NextDirMixes(s, me, speed, center, a);
    NoPull(s, me, speed, center, a);
    KeepsCourse(s.inertiaFactor, me.dir, w, h, NextDir(s, me, speed, center, a));
  }

  lemma NoPull(s: Settings, me: Pose, speed: real, center: Vec, a: Advice)
    requires s.centerWeight == s.attractWeight == s.matchWeight == s.avoidWeight == s.wallsWeight == 0.0
    ensures Pull(s, me, speed, center, a) == Vec(0.0, 0.0)
  {
    ZeroScale(SeekPoint(s.root, me, center));
    ZeroScale(SeekPoint(s.root, me, s.attractPt));
    ZeroScale(a.follow);
    ZeroScale(a.avoid);
    ZeroScale(AvoidWalls(s, me, speed));
  }

  lemma ZeroScale(u: Vec)
    ensures Scale(0.0, u) == Vec(0.0, 0.0)
  {}

  lemma KeepsCourse(i: real, dir: Vec, w: Vec, h: real, r: Vec)
    requires i > 0.0 && Dot(dir, dir) == 1.0 && Scale(i, w) == Plus(Scale(Sq(i), dir), Vec(0.0, 0.0))
    requires h >= 0.0 && Sq(h) == Sq(w.x) + Sq(w.y) && Along(r, w, h)
    ensures r == dir
  {
    Unmixed(i, dir, w);
    SameLength(i, dir, w, h);
    SameFactor(i, r.x, dir.x);
    SameFactor(i, r.y, dir.y);
  }

  lemma Unmixed(i: real, dir: Vec, w: Vec)
    requires i != 0.0 && Scale(i, w) == Plus(Scale(Sq(i), dir), Vec(0.0, 0.0))
    ensures w == Scale(i, dir)
  {
    assert i * (w.x - i * dir.x) == 0.0 && i * (w.y - i * dir.y) == 0.0;
  }

  lemma SameLength(i: real, dir: Vec, w: Vec, h: real)
    requires i > 0.0 && h >= 0.0 && w == Scale(i, dir) && Dot(dir, dir) == 1.0 && Sq(h) == Sq(w.x) + Sq(w.y)
    ensures h == i
  {
    assert Sq(w.x) + Sq(w.y) == Sq(i) * Dot(dir, dir);
    SquareRootUnique(h, i);
  }

  lemma SquareRootUnique(h: real, i: real)
    requires h >= 0.0 && i > 0.0 && Sq(h) == Sq(i)
    ensures h == i
  {
    assert (h - i) * (h + i) == 0.0;
    ZeroProduct(h - i, h + i);
  }

  lemma SameFactor(i: real, a: real, b: real)
    requires i != 0.0 && Times(i, a) == Times(i, b)
    ensures a == b
  {
    assert i * (a - b) == 0.0;
  }

  /** The neighbours looked at are the nearest boids; with none to look for, there is nothing to follow or avoid. */
  lemma NeighboursFound(s: Settings, poses: seq<Pose>, me: nat, b: Boid) returns (l: seq<nat>)
    requires s.Valid() && me < |poses| && b.Valid(|poses|)
    ensures var near, dist := NextNear(s, poses, me, b.near), Distances(Positions(poses), me);
            && (1 <= s.numNeighbors <= 4 ==>
                 Nearest(dist, me, |poses|, s.numNeighbors, l) && Holds(dist, me, s.numNeighbors, b.near, near, l))
            && (s.numNeighbors <= 0 ==>
                 near == b.near
                 && NextAdvice(s, poses, b.Seen(), near, b.speed) == Advice(Vec(0.0, 0.0), Vec(0.0, 0.0), 0.0))
  {
    FoundInRange(s, poses, me, b);
    l := [];
    if s.numNeighbors > 0 { l := FoundNearest(Distances(Positions(poses), me), me, s.numNeighbors, b.near); }
  }

  /** What one step makes of a boid: course, speed and place. */
  lemma NextFlies(s: Settings, poses: seq<Pose>, center: Vec, i: nat, b: Boid) returns (w: Vec, h: real)
    requires s.Valid() && s.RealRoot() && i < |poses| && b.Valid(|poses|)
    ensures Listed(poses, NextNear(s, poses, i, b.near))
    ensures var r, me := Next(s, poses, center, i, b), b.Seen();
            var a := NextAdvice(s, poses, me, NextNear(s, poses, i, b.near), b.speed);
            && h >= 0.0 && Sq(h) == Sq(w.x) + Sq(w.y) && Along(r.newDir, w, h)
            && Mixes(s, me.dir, Pull(s, me, b.speed, center, a), w)
            && r.speed == NextSpeed(s, a.speed)
            && Scale(100.0, Offset(b.newPos, r.newPos)) == Scale(Times(r.speed, s.speedupFactor), r.newDir)
  {
    FoundInRange(s, poses, i, b);
    var a := NextAdvice(s, poses, b.Seen(), NextNear(s, poses, i, b.near), b.speed);
    w, h := NextDirMixes(s, b.Seen(), b.speed, center, a);
    NextPosMoves(s, b.newPos, Next(s, poses, center, i, b).newDir, NextSpeed(s, a.speed));
  }

  lemma NextPosMoves(s: Settings, pos: Vec, dir: Vec, speed: real)
    ensures Scale(100.0, Offset(pos, NextPos(s, pos, dir, speed))) == Scale(Times(speed, s.speedupFactor), dir)
  {
    MovesOn(pos.x, dir.x, speed, s.speedupFactor);
    MovesOn(pos.y, dir.y, speed, s.speedupFactor);
  }

  lemma MovesOn(p: real, d: real, v: real, f: real)
    ensures Times(100.0, p + d * v * (f / 100.0) - p) == Times(Times(v, f), d)
  {
    Undo(f, 100.0);
    assert d * v * (f / 100.0) * 100.0 == d * v * f;
  }

  // The flock.

  /** A step starts by saving every place and course, and all boids see what was saved. */
  lemma StepSaves(s: Settings, bs: seq<Boid>, i: nat)
    requires s.Valid() && (forall j | 0 <= j < |bs| :: bs[j].Valid(|bs|)) && i < |bs|
    ensures Step(s, bs)[i].oldPos == bs[i].newPos && Step(s, bs)[i].oldDir == bs[i].newDir
    ensures Seen(Saved(bs))[i] == Pose(bs[i].newPos, bs[i].newDir)
  {
    SavedValid(bs);
    assert Step(s, bs)[i].Seen() == Saved(bs)[i].Seen();
  }

  function OffsetsFrom(c: Vec, bs: seq<Boid>): int -> Vec {
    i => if 0 <= i < |bs| then Offset(c, bs[i].oldPos) else Vec(0.0, 0.0)
  }

  /** The centre is where all offsets of the boids balance. */
  lemma CenterBalances(bs: seq<Boid>)
    requires |bs| > 0
    ensures SumOf(0, |bs|, OffsetsFrom(Center(bs), bs)) == Vec(0.0, 0.0)
  {
    var n, c := |bs|, Center(bs);
    TotalOffsets(Xs(bs), n, c.x, XOf(OffsetsFrom(c, bs)));
    TotalOffsets(Ys(bs), n, c.y, YOf(OffsetsFrom(c, bs)));
    Undo(Total(Xs(bs), n), n as real);
    Undo(Total(Ys(bs), n), n as real);
  }

  lemma {:induction false} TotalOffsets(xs: seq<real>, n: nat, c: real, f: int -> real)
    requires n <= |xs| && forall i | 0 <= i < n :: f(i) == xs[i] - c
    ensures Sum(0, n, f) == Total(xs, n) - c * n as real
  {
    if n > 0 {
      TotalOffsets(xs, n - 1, c, f);
      assert c * n as real == c * (n - 1) as real + c;
    }
  }
}
