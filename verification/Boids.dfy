/** The flight step of a flock: boids updated one after the other, with the effect of all moving at once. */
module Boids {
  import opened Neighbours
  import opened Summation

  datatype Box = Box(left: real, right: real, top: real, bottom: real)

  /** What the flight step only reads; `root` stands for the square root, `level` for comparing with a line of gradient
      zero, `over` for dividing by zero. */
  datatype Settings = Settings(
    numNeighbors: int, flyRect: Box, minSpeed: real, maxSpeed: real,
    centerWeight: real, attractWeight: real, matchWeight: real, avoidWeight: real, wallsWeight: real,
    edgeDist: real, speedupFactor: real, inertiaFactor: real, accelFactor: real, prefDist: real, prefDistSqr: real,
    attractPt: Vec, root: real -> real, level: (Pose, Vec) -> bool, over: real -> real)
  {
    predicate Valid() { numNeighbors <= MAX_NEIGHBORS && inertiaFactor != 0.0 }

    /** `root` is the square root. */
    ghost predicate RealRoot() { forall a | a >= 0.0 :: root(a) >= 0.0 && Sq(root(a)) == a }
  }

  /** The saved position and direction of a boid: all that the others see of it. */
  datatype Pose = Pose(pos: Vec, dir: Vec)

  datatype Boid = Boid(oldPos: Vec, newPos: Vec, oldDir: Vec, newDir: Vec, speed: real, near: Near) {
    function Seen(): Pose { Pose(oldPos, oldDir) }

    predicate Valid(count: nat) { near.Sized() && forall j | 0 <= j < MAX_NEIGHBORS :: near.ids[j] < count }
  }

  function Seen(bs: seq<Boid>): (poses: seq<Pose>)
    ensures |poses| == |bs|
  {
    seq(|bs|, i requires 0 <= i < |bs| => bs[i].Seen())
  }

  function Positions(poses: seq<Pose>): (pos: seq<Vec>)
    ensures |pos| == |poses|
  {
    seq(|poses|, i requires 0 <= i < |poses| => poses[i].pos)
  }

  ghost predicate ValidAll(bs: seq<Boid>) { forall i | 0 <= i < |bs| :: bs[i].Valid(|bs|) }

  // One boid.

  function Normalized(root: real -> real, v: Vec): (r: Vec) {
    var hypot := root(Sq(v.x) + Sq(v.y));
    if hypot != 0.0 then Vec(v.x / hypot, v.y / hypot) else v
  }

  function SeekPoint(root: real -> real, me: Pose, point: Vec): Vec {
    Normalized(root, Vec(point.x - me.pos.x, point.y - me.pos.y))
  }

  function Magnitude(a: real): real { if a < 0.0 then -a else a }

  function AvoidWalls(s: Settings, me: Pose, speed: real): Vec {
    var testX := me.pos.x + me.dir.x * speed * s.edgeDist;
    var testY := me.pos.y + me.dir.y * speed * s.edgeDist;
    var x :=
      if testX < s.flyRect.left then Magnitude(me.dir.x)
      else if testX > s.flyRect.right then -Magnitude(me.dir.x)
      else 0.0;
    var y :=
      if testY < s.flyRect.top then Magnitude(me.dir.y)
      else if testY > s.flyRect.bottom then -Magnitude(me.dir.y)
      else 0.0;
    Vec(x, y)
  }

  function InFront(s: Settings, me: Pose, other: Vec): bool {
    if me.dir.x != 0.0 then
      var grad := -me.dir.y / me.dir.x;
      var intercept := me.pos.y - grad * me.pos.x;
      var right := if grad != 0.0 then other.x >= (other.y - intercept) / grad else s.level(me, other);
      if right then me.dir.x > 0.0 else me.dir.x < 0.0
    else if me.dir.y > 0.0 then other.y > me.pos.y
    else other.y < me.pos.y
  }

  /** The sums of the loop over the neighbours. */
  datatype Steer = Steer(follow: Vec, total: Vec, numClose: nat, speed: real)

  function SteerBy(s: Settings, me: Pose, other: Pose, distSqr: real, st: Steer): Steer
    requires s.Valid()
  {
    var follow := Vec(st.follow.x + other.dir.x, st.follow.y + other.dir.y);
    var close := distSqr < s.prefDistSqr;
    var total := if close then
        var root := s.root(distSqr);
        var dist := if root == 0.0 then 0.0000001 else root;
        var distH, distV := other.pos.x - me.pos.x, other.pos.y - me.pos.y;
        Vec(st.total.x - distH - distH * (s.prefDist / dist), st.total.y - distV - distV * (s.prefDist / dist))
      else st.total;
    var rate := s.accelFactor / 100.0;
    var speed :=
      if InFront(s, me, other.pos) != close then st.speed * rate
      else if rate != 0.0 then st.speed / rate
      else s.over(st.speed);
    Steer(follow, total, if close then st.numClose + 1 else st.numClose, speed)
  }

  /** The loop over the neighbours from place `j` on. */
  function Steered(s: Settings, poses: seq<Pose>, me: Pose, near: Near, j: nat, st: Steer): Steer
    requires s.Valid() && near.Sized() && j <= s.numNeighbors
    requires forall q | 0 <= q < MAX_NEIGHBORS :: near.ids[q] < |poses|
    decreases s.numNeighbors - j
  {
    if j == s.numNeighbors then st
    else Steered(s, poses, me, near, j + 1, SteerBy(s, me, poses[near.ids[j]], near.dists[j], st))
  }

  /** What matching and avoiding the neighbours asks for. */
  datatype Advice = Advice(follow: Vec, avoid: Vec, speed: real)

  function Advised(s: Settings, st: Steer): Advice {
    if st.numClose != 0 then
      Advice(Normalized(s.root, st.follow), Vec(st.total.x / st.numClose as real, st.total.y / st.numClose as real),
        st.speed)
    else Advice(st.follow, Vec(0.0, 0.0), st.speed)
  }

  const NO_STEER := Steer(Vec(0.0, 0.0), Vec(0.0, 0.0), 0, 0.0)

  function NextSpeed(s: Settings, v: real): (r: real)
    ensures s.minSpeed <= s.maxSpeed ==> s.minSpeed <= r <= s.maxSpeed && (s.minSpeed <= v <= s.maxSpeed ==> r == v)
    ensures s.minSpeed > s.maxSpeed ==> r == if v > s.maxSpeed then s.maxSpeed else s.minSpeed
  {
    if s.minSpeed <= v <= s.maxSpeed then v else if v > s.maxSpeed then s.maxSpeed else s.minSpeed
  }

  function Blend(s: Settings, was: real, center: real, attract: real, follow: real, avoid: real, walls: real): real
    requires s.Valid()
  {
    s.inertiaFactor * was
    + (s.centerWeight * center + s.attractWeight * attract + s.matchWeight * follow + s.avoidWeight * avoid
      + s.wallsWeight * walls) / s.inertiaFactor
  }

  function NextDir(s: Settings, me: Pose, speed: real, center: Vec, a: Advice): Vec
    requires s.Valid()
  {
    var c, t, w := SeekPoint(s.root, me, center), SeekPoint(s.root, me, s.attractPt), AvoidWalls(s, me, speed);
    Normalized(s.root, Vec(Blend(s, me.dir.x, c.x, t.x, a.follow.x, a.avoid.x, w.x),
      Blend(s, me.dir.y, c.y, t.y, a.follow.y, a.avoid.y, w.y)))
  }

  function NextPos(s: Settings, pos: Vec, dir: Vec, speed: real): Vec {
    Vec(pos.x + dir.x * speed * (s.speedupFactor / 100.0), pos.y + dir.y * speed * (s.speedupFactor / 100.0))
  }

  /** The neighbours of boid `i` among the saved positions. */
  function NextNear(s: Settings, poses: seq<Pose>, i: nat, near: Near): (r: Near)
    requires s.Valid() && i < |poses| && near.Sized()
    ensures r.Sized()
  {
    if s.numNeighbors > 0 then FoundNeighbours(Distances(Positions(poses), i), i, s.numNeighbors, near) else near
  }

  function NextAdvice(s: Settings, poses: seq<Pose>, me: Pose, near: Near, speed: real): Advice
    requires s.Valid() && near.Sized() && forall q | 0 <= q < MAX_NEIGHBORS :: near.ids[q] < |poses|
  {
    if s.numNeighbors > 0 then Advised(s, Steered(s, poses, me, near, 0, NO_STEER.(speed := speed)))
    else Advice(Vec(0.0, 0.0), Vec(0.0, 0.0), 0.0)
  }

  /** Boid `i` after the step, from its own state and the poses of all. */
  function Next(s: Settings, poses: seq<Pose>, center: Vec, i: nat, b: Boid): (r: Boid)
    requires s.Valid() && i < |poses| && b.Valid(|poses|)
    ensures r.Seen() == b.Seen() && r.Valid(|poses|)
  {
    var near := NextNear(s, poses, i, b.near);
    FoundInRange(s, poses, i, b);
    var a := NextAdvice(s, poses, b.Seen(), near, b.speed);
    var dir, speed := NextDir(s, b.Seen(), b.speed, center, a), NextSpeed(s, a.speed);
    Boid(b.oldPos, NextPos(s, b.newPos, dir, speed), b.oldDir, dir, speed, near)
  }

  /** Every neighbour number is that of a boid, also where fewer boids than places were found. */
  lemma FoundInRange(s: Settings, poses: seq<Pose>, i: nat, b: Boid)
    requires s.Valid() && i < |poses| && b.Valid(|poses|)
    ensures var near := NextNear(s, poses, i, b.near);
            forall j | 0 <= j < MAX_NEIGHBORS :: near.ids[j] < |poses|
  {
    if s.numNeighbors > 0 {
      var l := FoundNearest(Distances(Positions(poses), i), i, s.numNeighbors, b.near);
    }
  }

  // All boids.

  function Saved(bs: seq<Boid>): (r: seq<Boid>)
    ensures |r| == |bs|
  {
    seq(|bs|, i requires 0 <= i < |bs| => bs[i].(oldPos := bs[i].newPos, oldDir := bs[i].newDir))
  }

  function Xs(bs: seq<Boid>): (xs: seq<real>)
    ensures |xs| == |bs|
  {
    seq(|bs|, i requires 0 <= i < |bs| => bs[i].oldPos.x)
  }

  function Ys(bs: seq<Boid>): (ys: seq<real>)
    ensures |ys| == |bs|
  {
    seq(|bs|, i requires 0 <= i < |bs| => bs[i].oldPos.y)
  }

  /** The mean of the positions saved in the step before; with no boids it is not used. */
  function Center(bs: seq<Boid>): Vec {
    if |bs| == 0 then Vec(0.0, 0.0) else Vec(Total(Xs(bs), |bs|) / |bs| as real, Total(Ys(bs), |bs|) / |bs| as real)
  }

  /** Every boid moves at once, all seeing the same saved flock. */
  function Together(s: Settings, center: Vec, saved: seq<Boid>): (r: seq<Boid>)
    requires s.Valid() && forall i | 0 <= i < |saved| :: saved[i].Valid(|saved|)
    ensures |r| == |saved|
  {
    seq(|saved|, i requires 0 <= i < |saved| => Next(s, Seen(saved), center, i, saved[i]))
  }

  lemma SavedValid(bs: seq<Boid>)
    requires forall i | 0 <= i < |bs| :: bs[i].Valid(|bs|)
    ensures forall i | 0 <= i < |bs| :: Saved(bs)[i].Valid(|bs|)
  {}

  function Step(s: Settings, bs: seq<Boid>): (r: seq<Boid>)
    requires s.Valid() && forall i | 0 <= i < |bs| :: bs[i].Valid(|bs|)
    ensures |r| == |bs| && forall i | 0 <= i < |r| :: r[i].Valid(|r|)
  {
    SavedValid(bs);
    Together(s, Center(bs), Saved(bs))
  }

  /** The boids updated in place, one after the other in the given order. */
  function InOrder(s: Settings, center: Vec, bs: seq<Boid>, order: seq<nat>): (r: seq<Boid>)
    requires s.Valid() && (forall i | 0 <= i < |bs| :: bs[i].Valid(|bs|))
             && forall j | 0 <= j < |order| :: order[j] < |bs|
    ensures |r| == |bs|
    decreases |order|
  {
    if order == [] then bs
    else InOrder(s, center, bs[order[0] := Next(s, Seen(bs), center, order[0], bs[order[0]])], order[1..])
  }

  lemma SeenAfter(bs: seq<Boid>, i: nat, b: Boid)
    requires i < |bs| && b.Seen() == bs[i].Seen()
    ensures Seen(bs[i := b]) == Seen(bs)
  {}

  /** Updating in any order that visits no boid twice moves exactly those visited, each as if all had moved at once. */
  lemma {:induction false} OrderIrrelevant(s: Settings, center: Vec, bs: seq<Boid>, order: seq<nat>)
    requires s.Valid() && (forall i | 0 <= i < |bs| :: bs[i].Valid(|bs|))
             && forall j | 0 <= j < |order| :: order[j] < |bs|
    requires forall i, j | 0 <= i < j < |order| :: order[i] != order[j]
    ensures forall i | 0 <= i < |bs| ::
            InOrder(s, center, bs, order)[i] == if i in order then Together(s, center, bs)[i] else bs[i]
    decreases |order|
  {
    if order != [] {
      var b := Next(s, Seen(bs), center, order[0], bs[order[0]]);
      var next := bs[order[0] := b];
      SeenAfter(bs, order[0], b);
      OrderIrrelevant(s, center, next, order[1..]);
      assert order[0] !in order[1..];
      forall i | 0 <= i < |bs|
        ensures InOrder(s, center, bs, order)[i] == if i in order then Together(s, center, bs)[i] else bs[i]
      {
        assert i in order <==> i == order[0] || i in order[1..];
        assert i != order[0] ==> Together(s, center, next)[i] == Together(s, center, bs)[i];
      }
    }
  }

  /** Every order that visits each boid once has the effect of all moving at once. */
  lemma AnyOrder(s: Settings, center: Vec, bs: seq<Boid>, order: seq<nat>)
    requires s.Valid() && (forall i | 0 <= i < |bs| :: bs[i].Valid(|bs|))
             && forall j | 0 <= j < |order| :: order[j] < |bs|
    requires (forall i, j | 0 <= i < j < |order| :: order[i] != order[j]) && forall i | 0 <= i < |bs| :: i in order
    ensures InOrder(s, center, bs, order) == Together(s, center, bs)
  {
    OrderIrrelevant(s, center, bs, order);
  }

  // Bounds.

  lemma SqPositive(a: real)
    ensures Sq(a) >= 0.0 && (if a == 0.0 then Sq(a) == 0.0 else Sq(a) > 0.0)
  {
    if a > 0.0 {
      calc { Sq(a); == a * a; > 0.0; }
    } else if a < 0.0 {
      calc { Sq(a); == (0.0 - a) * (0.0 - a); > 0.0; }
    }
  }

  lemma SqProduct(a: real, b: real)
    ensures Sq(a * b) == Sq(a) * Sq(b)
  {}

  lemma SqMonotone(a: real, b: real)
    requires 0.0 <= a <= b
    ensures Sq(a) <= Sq(b)
  {}

  lemma QuotientSquares(x: real, y: real, h: real)
    requires h != 0.0 && Sq(h) == Sq(x) + Sq(y)
    ensures Sq(x / h) + Sq(y / h) == 1.0
  {
    var u, v := x / h, y / h;
    assert u * h == x && v * h == y;
    SqProduct(u, h);
    SqProduct(v, h);
    SqPositive(h);
    calc { Sq(u) * Sq(h) + Sq(v) * Sq(h); == Sq(x) + Sq(y); == Sq(h); }
    Cancel(Sq(u), Sq(v), Sq(h));
  }

  lemma Cancel(a: real, b: real, q: real)
    requires a * q + b * q == q && q > 0.0
    ensures a + b == 1.0
  {}

  /** A direction is given unit length, or stays zero. */
  lemma NormalizedLength(root: real -> real, v: Vec)
    requires forall a | a >= 0.0 :: root(a) >= 0.0 && Sq(root(a)) == a
    ensures var r := Normalized(root, v);
            Sq(r.x) + Sq(r.y) == if v == Vec(0.0, 0.0) then 0.0 else 1.0
  {
    SqPositive(v.x);
    SqPositive(v.y);
    var h := root(Sq(v.x) + Sq(v.y));
    SqPositive(h);
    if v != Vec(0.0, 0.0) {
      QuotientSquares(v.x, v.y, h);
    }
  }

  /** The farthest a boid can move in a step. */
  function Reach(s: Settings): real { s.maxSpeed * Magnitude(s.speedupFactor / 100.0) }

  /** A boid's speed stays between the limits and its move within reach. */
  lemma NextBounds(s: Settings, poses: seq<Pose>, center: Vec, i: nat, b: Boid)
    requires s.Valid() && s.RealRoot() && i < |poses| && b.Valid(|poses|) && 0.0 <= s.minSpeed <= s.maxSpeed
    ensures var r := Next(s, poses, center, i, b);
            && s.minSpeed <= r.speed <= s.maxSpeed
            && DistSqrToPt(r.newPos, b.newPos) <= Sq(Reach(s))
  {
    var r := Next(s, poses, center, i, b);
    FoundInRange(s, poses, i, b);
    var a := NextAdvice(s, poses, b.Seen(), NextNear(s, poses, i, b.near), b.speed);
    NextDirLength(s, b.Seen(), b.speed, center, a);
    NextPosReach(s, b.newPos, r.newDir, r.speed);
  }

  lemma NextPosReach(s: Settings, pos: Vec, dir: Vec, speed: real)
    requires 0.0 <= s.minSpeed <= speed <= s.maxSpeed && Sq(dir.x) + Sq(dir.y) <= 1.0
    ensures DistSqrToPt(NextPos(s, pos, dir, speed), pos) <= Sq(Reach(s))
  {
    var f := s.speedupFactor / 100.0;
    var p, q, to := speed * f, speed * Magnitude(f), NextPos(s, pos, dir, speed);
    Regroup(dir.x, speed, f);
    Regroup(dir.y, speed, f);
    MoveLength(pos, dir, p, to);
    SqProduct(speed, f);
    SqProduct(speed, Magnitude(f));
    Below(speed, s.maxSpeed, Magnitude(f));
    SqMonotone(q, Reach(s));
  }

  lemma AtMost(a: real, b: real, q: real)
    requires a + b <= 1.0 && q >= 0.0
    ensures a * q + b * q <= q
  {}

  lemma Regroup(a: real, b: real, c: real)
    ensures a * b * c == a * (b * c)
  {}

  lemma Below(a: real, b: real, c: real)
    requires 0.0 <= a <= b && c >= 0.0
    ensures 0.0 <= a * c <= b * c
  {}

  lemma NextDirLength(s: Settings, me: Pose, speed: real, center: Vec, a: Advice)
    requires s.Valid() && s.RealRoot()
    ensures var d := NextDir(s, me, speed, center, a);
            Sq(d.x) + Sq(d.y) <= 1.0
  {
    var c, t, w := SeekPoint(s.root, me, center), SeekPoint(s.root, me, s.attractPt), AvoidWalls(s, me, speed);
    NormalizedLength(s.root, Vec(Blend(s, me.dir.x, c.x, t.x, a.follow.x, a.avoid.x, w.x),
      Blend(s, me.dir.y, c.y, t.y, a.follow.y, a.avoid.y, w.y)));
  }

  lemma MoveLength(pos: Vec, dir: Vec, p: real, to: Vec)
    requires Sq(dir.x) + Sq(dir.y) <= 1.0 && to == Vec(pos.x + dir.x * p, pos.y + dir.y * p)
    ensures DistSqrToPt(to, pos) <= Sq(p)
  {
    SqProduct(dir.x, p);
    SqProduct(dir.y, p);
    SqPositive(p);
    assert to.x - pos.x == dir.x * p && to.y - pos.y == dir.y * p;
    AtMost(Sq(dir.x), Sq(dir.y), Sq(p));
  }

  // Whole flights.

  function Flown(s: Settings, bs: seq<Boid>, t: nat): (r: seq<Boid>)
    requires s.Valid() && forall i | 0 <= i < |bs| :: bs[i].Valid(|bs|)
    ensures |r| == |bs| && forall i | 0 <= i < |r| :: r[i].Valid(|r|)
  {
    if t == 0 then bs else Step(s, Flown(s, bs, t - 1))
  }

  lemma FlownNext(s: Settings, bs: seq<Boid>, t: nat, was: seq<Boid>)
    requires s.Valid() && ValidAll(bs) && was == Flown(s, bs, t)
    ensures ValidAll(was) && Step(s, was) == Flown(s, bs, t + 1)
  {}

  lemma StepBounds(s: Settings, bs: seq<Boid>, i: nat)
    requires s.Valid() && s.RealRoot() && 0.0 <= s.minSpeed <= s.maxSpeed
    requires i < |bs| && forall j | 0 <= j < |bs| :: bs[j].Valid(|bs|)
    ensures s.minSpeed <= Step(s, bs)[i].speed <= s.maxSpeed
    ensures DistSqrToPt(Step(s, bs)[i].newPos, bs[i].newPos) <= Sq(Reach(s))
  {
    SavedValid(bs);
    NextBounds(s, Seen(Saved(bs)), Center(bs), i, Saved(bs)[i]);
  }

  /** `b` flies within the limits of speed and is at most `t` moves of length `reach` away from `start`. */
  ghost predicate Within(s: Settings, reach: real, start: Vec, t: nat, b: Boid) {
    && (t > 0 ==> s.minSpeed <= b.speed <= s.maxSpeed)
    && DistSqrToPt(b.newPos, start) <= Sq(t as real * reach)
  }

  lemma StepWithin(s: Settings, bs: seq<Boid>, start: Vec, t: nat, i: nat)
    requires s.Valid() && s.RealRoot() && 0.0 <= s.minSpeed <= s.maxSpeed
    requires i < |bs| && forall j | 0 <= j < |bs| :: bs[j].Valid(|bs|)
    requires Within(s, Reach(s), start, t, bs[i])
    ensures Within(s, Reach(s), start, t + 1, Step(s, bs)[i])
  {
    StepBounds(s, bs, i);
    ReachPositive(s);
    WithinMore(s, Reach(s), start, t, bs[i], Step(s, bs)[i]);
  }

  lemma WithinMore(s: Settings, reach: real, start: Vec, t: nat, was: Boid, b: Boid)
    requires s.minSpeed <= b.speed <= s.maxSpeed && reach >= 0.0 && DistSqrToPt(b.newPos, was.newPos) <= Sq(reach)
    requires Within(s, reach, start, t, was)
    ensures Within(s, reach, start, t + 1, b)
  {
    Hop(b.newPos, was.newPos, start, reach, t);
  }

  /** After any number of steps every speed is between the limits and no boid is farther away than its reach allows. */
  lemma {:induction false} FlightBounds(s: Settings, bs: seq<Boid>, t: nat, i: nat)
    requires s.Valid() && s.RealRoot() && 0.0 <= s.minSpeed <= s.maxSpeed
    requires i < |bs| && forall j | 0 <= j < |bs| :: bs[j].Valid(|bs|)
    ensures Within(s, Reach(s), bs[i].newPos, t, Flown(s, bs, t)[i])
  {
    if t > 0 {
      FlightBounds(s, bs, t - 1, i);
      StepWithin(s, Flown(s, bs, t - 1), bs[i].newPos, t - 1, i);
    } else {
      SqPositive(0.0);
    }
  }

  lemma ReachPositive(s: Settings)
    requires 0.0 <= s.maxSpeed
    ensures Reach(s) >= 0.0
  {}

  lemma Hop(a: Vec, b: Vec, c: Vec, r: real, t: nat)
    requires r >= 0.0 && DistSqrToPt(a, b) <= Sq(r) && DistSqrToPt(b, c) <= Sq(t as real * r)
    ensures DistSqrToPt(a, c) <= Sq((t + 1) as real * r)
  {
    Below(0.0, t as real, r);
    OneMore(t, r);
    Triangle(a, b, c, r, t as real * r, (t + 1) as real * r);
  }

  lemma OneMore(t: nat, r: real)
    ensures (t + 1) as real * r == r + t as real * r
  {}

  lemma Triangle(a: Vec, b: Vec, c: Vec, p: real, q: real, sum: real)
    requires sum == p + q && p >= 0.0 && q >= 0.0 && DistSqrToPt(a, b) <= Sq(p) && DistSqrToPt(b, c) <= Sq(q)
    ensures DistSqrToPt(a, c) <= Sq(sum)
  {
    var ux, uy, vx, vy := a.x - b.x, a.y - b.y, b.x - c.x, b.y - c.y;
    Cauchy(ux, uy, vx, vy, p, q);
    SqSum(ux, vx);
    SqSum(uy, vy);
    SqSum(p, q);
    assert a.x - c.x == ux + vx && a.y - c.y == uy + vy;
  }

  lemma SqSum(a: real, b: real)
    ensures Sq(a + b) == Sq(a) + 2.0 * (a * b) + Sq(b)
  {}

  /** The inner product of two vectors is at most the product of bounds on their lengths. */
  lemma Cauchy(ux: real, uy: real, vx: real, vy: real, p: real, q: real)
    requires p >= 0.0 && q >= 0.0 && Sq(ux) + Sq(uy) <= Sq(p) && Sq(vx) + Sq(vy) <= Sq(q)
    ensures ux * vx + uy * vy <= p * q
  {
    var dot, cross := ux * vx + uy * vy, ux * vy - uy * vx;
    Lagrange(ux, uy, vx, vy);
    SqPositive(cross);
    SqPositive(ux);
    SqPositive(uy);
    SqPositive(vx);
    SqPositive(vy);
    SqPositive(q);
    ProductMonotone(Sq(ux) + Sq(uy), Sq(p), Sq(vx) + Sq(vy), Sq(q));
    SqProduct(p, q);
    Below(0.0, p, q);
    SqReflects(dot, p * q);
  }

  lemma Lagrange(ux: real, uy: real, vx: real, vy: real)
    ensures Sq(ux * vx + uy * vy) + Sq(ux * vy - uy * vx) == (Sq(ux) + Sq(uy)) * (Sq(vx) + Sq(vy))
  {}

  lemma ProductMonotone(a: real, b: real, c: real, d: real)
    requires 0.0 <= a <= b && 0.0 <= c <= d
    ensures a * c <= b * d
  {}

  lemma SqReflects(a: real, b: real)
    requires b >= 0.0 && Sq(a) <= Sq(b)
    ensures a <= b
  {
    if a > b { SqStrict(b, a); }
  }

  lemma SqStrict(b: real, a: real)
    requires 0.0 <= b < a
    ensures Sq(b) < Sq(a)
  {
    calc { Sq(b); == b * b; <= b * a; < a * a; == Sq(a); }
  }

  /** The centre the boids seek is that of the flock one step ago, since it is taken before the positions are saved. */
  lemma CenterLags(s: Settings, bs: seq<Boid>)
    requires s.Valid() && forall i | 0 <= i < |bs| :: bs[i].Valid(|bs|)
    ensures Center(Step(s, bs)) == Center(Saved(bs))
  {
    SavedValid(bs);
    var next := Step(s, bs);
    assert forall i | 0 <= i < |bs| :: next[i].oldPos == Saved(bs)[i].oldPos by {
      forall i | 0 <= i < |bs| ensures next[i].oldPos == Saved(bs)[i].oldPos {
        assert next[i].Seen() == Saved(bs)[i].Seen();
      }
    }
    assert Xs(next) == Xs(Saved(bs)) && Ys(next) == Ys(Saved(bs));
  }

  // The flock object.

  class Flock {
    const settings: Settings
    const boid: array<Boid>
    var centerPt: Vec

    ghost predicate Valid()
      reads this, boid
    {
      settings.Valid() && forall i | 0 <= i < boid.Length :: boid[i].Valid(boid.Length)
    }

    /** A flock with the given positions and directions, which the program draws at random. */
    constructor (s: Settings, start: seq<Pose>, speed: real)
      requires s.Valid()
      ensures Valid() && fresh(boid) && boid.Length == |start| && settings == s
      ensures forall i | 0 <= i < |start| ::
              boid[i].oldPos == boid[i].newPos == start[i].pos
              && boid[i].newDir == start[i].dir && boid[i].speed == speed
    {
      settings := s;
      centerPt := Vec(0.0, 0.0);
      boid := new Boid[|start|](i requires 0 <= i < |start| =>
        Boid(start[i].pos, start[i].pos, Vec(0.0, 0.0), start[i].dir, speed, Near([0, 0, 0, 0], [0.0, 0.0, 0.0, 0.0])));
    }

    method FindFlockCenter() returns (c: Vec)
      requires boid.Length > 0
      ensures c == Center(boid[..])
    {
      var totalH, totalV, i := 0.0, 0.0, 0;
      while i < boid.Length
        invariant 0 <= i <= boid.Length
        invariant totalH == Total(Xs(boid[..]), i) && totalV == Total(Ys(boid[..]), i)
      {
        totalH := totalH + boid[i].oldPos.x;
        totalV := totalV + boid[i].oldPos.y;
        i := i + 1;
      }
      c := Vec(totalH / boid.Length as real, totalV / boid.Length as real);
    }

    method SaveAll()
      requires Valid()
      modifies boid
      ensures Valid() && boid[..] == Saved(old(boid[..]))
    {
      var i := 0;
      while i < boid.Length
        invariant 0 <= i <= boid.Length
        invariant forall j | 0 <= j < i :: boid[j] == Saved(old(boid[..]))[j]
        invariant forall j | i <= j < boid.Length :: boid[j] == old(boid[j])
      {
        boid[i] := boid[i].(oldPos := boid[i].newPos, oldDir := boid[i].newDir);
        i := i + 1;
      }
      assert boid[..] == Saved(old(boid[..]));
    }

    /** Sorts boid `i` at distance `d` into the neighbours of boid `me`. */
    method SortIn(me: nat, k: nat, d: real, i: nat)
      requires me < boid.Length && boid[me].near.Sized() && 1 <= k <= MAX_NEIGHBORS
      modifies boid
      ensures boid[..] == old(boid[..])[me := old(boid[me]).(near := Shift(old(boid[me]).near, d, i, k - 1))]
    {
      var j := k - 1;
      ghost var b := boid[me];
      while j > 0 && d < boid[me].near.dists[j - 1]
        invariant 0 <= j < k && boid[me].near.Sized() && boid[me] == b.(near := boid[me].near)
        invariant forall q | 0 <= q < boid.Length && q != me :: boid[q] == old(boid[q])
        invariant Shift(boid[me].near, d, i, j) == Shift(b.near, d, i, k - 1)
      {
        var n := boid[me].near;
        boid[me] := boid[me].(near := n.(dists := n.dists[j := n.dists[j - 1]]));
        boid[me] := boid[me].(near := boid[me].near.(ids := n.ids[j := n.ids[j - 1]]));
        j := j - 1;
      }
      var n := boid[me].near;
      boid[me] := boid[me].(near := Near(n.ids[j := i], n.dists[j := d]));
      assert boid[..] == old(boid[..])[me := boid[me]];
    }

    /** Looks for the neighbours of boid `me`: the case of one neighbour has a loop of its own. */
    method FindNeighbours(me: nat)
      requires Valid() && me < boid.Length && settings.numNeighbors > 0
      modifies boid
      ensures boid[..] == old(boid[..])[
                me := old(boid[me]).(near := NextNear(settings, Seen(old(boid[..])), me, old(boid[me]).near))]
    {
      var k := settings.numNeighbors;
      ghost var b, dist := boid[me], Distances(Positions(Seen(boid[..])), me);
      boid[me] := boid[me].(near := Cleared(boid[me].near, k));
      var i := 0;
      while i < boid.Length
        invariant 0 <= i <= boid.Length && boid[me].near.Sized() && boid[me] == b.(near := boid[me].near)
        invariant forall q | 0 <= q < boid.Length && q != me :: boid[q] == old(boid[q])
        invariant Scan(dist, me, k, boid[me].near, i) == FoundNeighbours(dist, me, k, b.near)
      {
        if i != me {
          var distSqr := DistSqrToPt(boid[me].oldPos, boid[i].oldPos);
          assert distSqr == dist[i];
          Consider(me, k, distSqr, i);
        }
        i := i + 1;
      }
      assert boid[..] == old(boid[..])[me := boid[me]];
    }

    /** Offers boid `i` at distance `d` to the neighbours of boid `me`. */
    method Consider(me: nat, k: nat, d: real, i: nat)
      requires me < boid.Length && boid[me].near.Sized() && 1 <= k <= MAX_NEIGHBORS
      modifies boid
      ensures boid[me] == old(boid[me]).(near := Offer(old(boid[me]).near, k, d, i))
      ensures forall q | 0 <= q < boid.Length && q != me :: boid[q] == old(boid[q])
    {
      if k == 1 {
        if boid[me].near.dists[0] > d {
          boid[me] := boid[me].(near := Near(boid[me].near.ids[0 := i], boid[me].near.dists[0 := d]));
        }
      } else if d < boid[me].near.dists[k - 1] {
        ghost var was := boid[..];
        SortIn(me, k, d, i);
        assert forall q | 0 <= q < boid.Length :: boid[q] == boid[..][q] && was[q] == old(boid[q]);
      }
    }

    /** The loop over the neighbours of boid `me`. */
    method MatchAndAvoid(me: nat, ghost poses: seq<Pose>) returns (a: Advice)
      requires Valid() && me < boid.Length && settings.numNeighbors > 0 && poses == Seen(boid[..])
      ensures a == NextAdvice(settings, poses, boid[me].Seen(), boid[me].near, boid[me].speed)
    {
      var b := boid[me];
      var st, j := NO_STEER.(speed := b.speed), 0;
      while j < settings.numNeighbors
        invariant 0 <= j <= settings.numNeighbors
        invariant Steered(settings, poses, b.Seen(), b.near, j, st)
                  == Steered(settings, poses, b.Seen(), b.near, 0, NO_STEER.(speed := b.speed))
      {
        var neighbor := b.near.ids[j];
        assert boid[neighbor].Seen() == poses[neighbor];
        st := SteerBy(settings, b.Seen(), boid[neighbor].Seen(), b.near.dists[j], st);
        j := j + 1;
      }
      a := Advised(settings, st);
    }

    /** Updates boid `i` from the poses saved by all. */
    method Fly(i: nat)
      requires Valid() && i < boid.Length
      modifies boid
      ensures Valid()
      ensures boid[..] == old(boid[..])[i := Next(settings, Seen(old(boid[..])), centerPt, i, old(boid[i]))]
    {
      ghost var was, b, poses := boid[..], boid[i], Seen(boid[..]);
      FoundInRange(settings, poses, i, b);
      var a := Advice(Vec(0.0, 0.0), Vec(0.0, 0.0), 0.0);
      if settings.numNeighbors > 0 {
        FindNeighbours(i);
        SeenAfter(was, i, b.(near := NextNear(settings, poses, i, b.near)));
        a := MatchAndAvoid(i, poses);
      }
      var speed := boid[i].speed;
      boid[i] := boid[i].(newDir := NextDir(settings, boid[i].Seen(), speed, centerPt, a));
      boid[i] := boid[i].(speed := NextSpeed(settings, a.speed));
      boid[i] := boid[i].(newPos := NextPos(settings, boid[i].newPos, boid[i].newDir, boid[i].speed));
      assert boid[..] == was[i := boid[i]];
    }

    /** The loop over all boids, each updated in place. */
    method FlyAll()
      requires Valid()
      modifies boid
      ensures Valid() && boid[..] == Together(settings, centerPt, old(boid[..]))
    {
      ghost var saved := boid[..];
      ghost var poses := Seen(saved);
      var i := 0;
      while i < boid.Length
        invariant 0 <= i <= boid.Length && Valid()
        invariant Seen(boid[..]) == poses
        invariant forall j | 0 <= j < i :: boid[j] == Together(settings, centerPt, saved)[j]
        invariant forall j | i <= j < boid.Length :: boid[j] == saved[j]
      {
        ghost var was := boid[..];
        Fly(i);
        SeenAfter(was, i, boid[i]);
        assert boid[..] == was[i := boid[i]];
        i := i + 1;
      }
      assert boid[..] == Together(settings, centerPt, saved);
    }

    /** Moves the whole flock in place by one step. */
    method FlightStep()
      requires Valid()
      modifies this`centerPt, boid
      ensures Valid()
      ensures boid[..] == Step(settings, old(boid[..]))
      ensures boid.Length > 0 ==> centerPt == Center(old(boid[..]))
    {
      if boid.Length > 0 {
        centerPt := FindFlockCenter();
      }
      SaveAll();
      FlyAll();
    }

    ghost predicate FlownFrom(start: seq<Boid>, t: nat)
      reads this, boid
    {
      settings.Valid() && ValidAll(start) && boid[..] == Flown(settings, start, t)
    }

    /** A run of bangs. */
    method Travel(t: nat)
      requires Valid()
      modifies this`centerPt, boid
      ensures Valid() && FlownFrom(old(boid[..]), t)
    {
      ghost var start := boid[..];
      assert FlownFrom(start, 0);
      var i := 0;
      while i < t
        invariant 0 <= i <= t && Valid() && forall k | k == i :: FlownFrom(start, k)
      {
        TravelOn(start, i);
        i := i + 1;
      }
    }

    method TravelOn(ghost start: seq<Boid>, ghost t: nat)
      requires Valid() && FlownFrom(start, t)
      modifies this`centerPt, boid
      ensures Valid() && FlownFrom(start, t + 1)
    {
      FlownNext(settings, start, t, boid[..]);
      FlightStep();
    }
  }
}
