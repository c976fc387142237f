/** What the motion generator guarantees: every plan reaches its target at rest, and over
    every sequence of updates speed and position stay within the limits
    (canopen_fake_slaves/src/motion_generator.cpp). */
module MotionSafety {
  import opened Reals
  import opened MotionPlan
  import opened MotionGenerator

  /** A plan measured along its direction. */
  function CourseOf(p: Plan, maxVel: real, maxAcc: real): Course {
    Course(maxAcc, Times(p.signM, p.oldVel), if p.shape then maxVel else p.velSt, p.tBrk, p.tBrk + p.tAcc,
           if p.shape then p.tVel else 0.0, p.tDec, -p.dBrk + p.dAcc, p.dDec)
  }

  /** The position x along the plan's direction. */
  function Along(p: Plan, x: real): real {
    if p.signM == 1.0 then p.oldPos + x else p.oldPos - x
  }

  /** A plan that moves, within the limits, to its target. */
  predicate Moves(p: Plan, maxVel: real, maxAcc: real) {
    var c := CourseOf(p, maxVel, maxAcc);
    && (p.signM == 1.0 || p.signM == -1.0)
    && Balanced(c, maxVel)
    && Along(p, Distance(c)) == p.posRef
    && (p.shape ==> p.dVel == Times(maxVel, p.tVel))
  }

  /** A plan that stays where it is. */
  predicate Rests(p: Plan) {
    && p.oldVel == 0.0 && p.posRef == p.oldPos
    && p.tBrk + p.tAcc == 0.0 && p.tDec == 0.0 && (p.shape ==> p.tVel == 0.0)
  }

  // ----- The planner's arithmetic -----

  lemma TimeForFacts(x: real, a: real)
    requires a > 0.0
    ensures a * TimeFor(x, a) == x
    ensures x >= 0.0 ==> TimeFor(x, a) >= 0.0
    ensures x <= 0.0 ==> TimeFor(x, a) <= 0.0
  {
  }

  lemma SquareOfAbs(x: real)
    ensures Abs(x) * Abs(x) == x * x
  {
  }

  lemma SquareLe(x: real, y: real)
    requires x >= 0.0 && y >= 0.0 && x * x <= y * y
    ensures x <= y
  {
    if x > y {
      DifferenceOfSquares(x, y);
      PositiveProduct(x - y, x + y);
    }
  }

  lemma PositiveProduct(x: real, y: real)
    requires x > 0.0 && y > 0.0
    ensures x * y > 0.0
  {
  }

  lemma DifferenceOfSquares(x: real, y: real)
    ensures (x - y) * (x + y) == x * x - y * y
  {
  }

  lemma SignTimes(s: real, x: real)
    ensures s == 1.0 ==> Times(s, x) == x
    ensures s == -1.0 ==> Times(s, x) == -x
    ensures s == 0.0 ==> Times(s, x) == 0.0
  {
  }

  /** The signed speed: against the sign when braking is needed. */
  lemma SignedSpeed(s: real, v: real)
    requires s == 1.0 || s == -1.0
    ensures Times(s, v) == if s == Sign(v) then Abs(v) else -Abs(v)
  {
  }

  /** Acceleration from rest, after braking from speed b: the equations of the first part. */
  lemma BrakeThenAccelerate(a: real, b: real, vs: real)
    requires a > 0.0 && b >= 0.0 && vs >= 0.0
    ensures var tBrk, tAcc := TimeFor(b, a), TimeFor(vs, a);
            && 0.0 <= tBrk && 0.0 <= tAcc
            && Accelerates(a, -b, vs, tBrk, tBrk + tAcc, -HalfWay(tBrk, b) + HalfWay(tAcc, vs))
  {
  }

  lemma Distribute(a: real, x: real, y: real)
    ensures a * (x + y) == a * x + a * y
  {
  }

  /** Acceleration from speed b in the right direction. */
  lemma AccelerateOnly(a: real, b: real, vs: real)
    requires a > 0.0 && 0.0 <= b <= vs
    ensures var tAcc := TimeFor(vs - b, a);
            && 0.0 <= tAcc
            && Accelerates(a, b, vs, 0.0, tAcc, HalfWay(tAcc, vs + b))
  {
  }

  lemma Stopping(a: real, vs: real)
    requires a > 0.0 && vs >= 0.0
    ensures var tDec := TimeFor(vs, a);
            tDec >= 0.0 && Decelerates(a, vs, tDec, HalfWay(tDec, vs))
  {
  }

  // ----- The four shapes of a plan -----

  /** The start state is one the planner handles: not heading for exactly the stopping point. */
  predicate Regular(maxAcc: real, pos: real, vel: real, posRef: real)
    requires maxAcc != 0.0
  {
    vel != 0.0 ==> posRef != Stop(maxAcc, pos, vel)
  }

  /** The distance to go, along the sign of the motion. */
  function Gap(s: real, pos: real, posRef: real): real {
    if s == 1.0 then posRef - pos else pos - posRef
  }

  lemma DistanceToGo(maxVel: real, maxAcc: real, pos: real, vel: real, posRef: real, velSt: real)
    requires maxVel > 0.0 && maxAcc > 0.0
    requires Trapezoid(maxVel, maxAcc, pos, vel, posRef, velSt).signM != 0.0
    ensures var p := Trapezoid(maxVel, maxAcc, pos, vel, posRef, velSt);
            var dBrk := HalfWay(TimeFor(Abs(vel), maxAcc), Abs(vel));
            && (p.signM == 1.0 || p.signM == -1.0)
            && (p.signM != Sign(vel) ==> p.dBrk == dBrk && p.dTot == Gap(p.signM, pos, posRef) + dBrk && p.dTot > 0.0)
            && (p.signM == Sign(vel) ==> p.dTot == Gap(p.signM, pos, posRef) && p.dTot > dBrk)
            && (p.signM == Sign(vel) ==> Abs(posRef - pos) == p.dTot)
  {
  }

  /** What makes a plan move, for a plan given by its fields. */
  lemma MovesIf(p: Plan, maxVel: real, maxAcc: real)
    requires p.signM == 1.0 || p.signM == -1.0
    requires var vs := if p.shape then maxVel else p.velSt;
             var w := if p.signM == Sign(p.oldVel) then Abs(p.oldVel) else -Abs(p.oldVel);
             && 0.0 <= vs <= maxVel && Abs(p.oldVel) <= maxVel
             && 0.0 <= p.tBrk && 0.0 <= p.tAcc && 0.0 <= p.tDec
             && Accelerates(maxAcc, w, vs, p.tBrk, p.tBrk + p.tAcc, -p.dBrk + p.dAcc)
             && Decelerates(maxAcc, vs, p.tDec, p.dDec)
    requires if p.shape then p.tVel >= 0.0 && Times(maxVel, p.tVel) == p.dVel else true
    requires -p.dBrk + p.dAcc + (if p.shape then p.dVel else 0.0) + p.dDec == Gap(p.signM, p.oldPos, p.posRef)
    ensures Moves(p, maxVel, maxAcc)
  {
    SignedSpeed(p.signM, p.oldVel);
    hide Accelerates, Decelerates, Times, Distance;
    DistanceIs(CourseOf(p, maxVel, maxAcc), if p.shape then p.dVel else 0.0);
  }

  lemma TrapezoidMoves(maxVel: real, maxAcc: real, pos: real, vel: real, posRef: real, velSt: real)
    requires maxVel > 0.0 && maxAcc > 0.0 && -maxVel <= vel <= maxVel
    requires var p := Trapezoid(maxVel, maxAcc, pos, vel, posRef, velSt); p.signM != 0.0 && p.shape
    ensures Moves(Trapezoid(maxVel, maxAcc, pos, vel, posRef, velSt), maxVel, maxAcc)
  {
    hide HalfWay, TimeFor, Accelerates, Decelerates, Times, Moves;
    var p := Trapezoid(maxVel, maxAcc, pos, vel, posRef, velSt);
    var b := Abs(vel);
    DistanceToGo(maxVel, maxAcc, pos, vel, posRef, velSt);
    TimeForFacts(p.dVel, maxVel);
    ProductIsTimes(maxVel, p.tVel, p.dVel);
    Stopping(maxAcc, maxVel);
    BrakeThenAccelerate(maxAcc, b, maxVel);
    AccelerateOnly(maxAcc, b, maxVel);
    MovesIf(p, maxVel, maxAcc);
  }

  lemma ProductIsTimes(x: real, y: real, z: real)
    requires x * y == z
    ensures Times(x, y) == z
  {
  }

  lemma DistanceIs(c: Course, d: real)
    requires Times(c.vs, c.tv) == d || (c.tv == 0.0 && d == 0.0)
    ensures Distance(c) == c.d1 + d + c.d3
  {
  }

  /** When no time is left at the peak, the lower peak is within the limit and the distance fits. */
  lemma BrakingTriangle(maxVel: real, maxAcc: real, root: real, dTot: real)
    requires maxVel > 0.0 && maxAcc > 0.0 && root >= 0.0 && root * root == maxAcc * dTot
    requires dTot <= HalfWay(TimeFor(maxVel, maxAcc), maxVel) + HalfWay(TimeFor(maxVel, maxAcc), maxVel)
    ensures root <= maxVel
    ensures HalfWay(TimeFor(root, maxAcc), root) + HalfWay(TimeFor(root, maxAcc), root) == dTot
  {
  }

  lemma ForwardTriangle(maxVel: real, maxAcc: real, b: real, root: real, dTot: real)
    requires maxVel > 0.0 && maxAcc > 0.0 && 0.0 <= b <= maxVel && root >= 0.0
    requires root * root == 0.5 * (b * b) + maxAcc * dTot
    requires dTot >= HalfWay(TimeFor(b, maxAcc), b)
    requires dTot <= HalfWay(TimeFor(maxVel - b, maxAcc), maxVel + b) + HalfWay(TimeFor(maxVel, maxAcc), maxVel)
    ensures b <= root <= maxVel
    ensures HalfWay(TimeFor(root - b, maxAcc), root + b) + HalfWay(TimeFor(root, maxAcc), root) == dTot
  {
    hide HalfWay, TimeFor;
    var d := HalfWay(TimeFor(b, maxAcc), b);
    var h1, h2 := HalfWay(TimeFor(maxVel - b, maxAcc), maxVel + b), HalfWay(TimeFor(maxVel, maxAcc), maxVel);
    var k1, k2 := HalfWay(TimeFor(root - b, maxAcc), root + b), HalfWay(TimeFor(root, maxAcc), root);
    HalfWayOf(maxAcc, b, b);
    HalfWayOf(maxAcc, maxVel - b, maxVel + b);
    HalfWayOf(maxAcc, maxVel, maxVel);
    HalfWayOf(maxAcc, root - b, root + b);
    HalfWayOf(maxAcc, root, root);
    ForwardPeak(maxVel, maxAcc, b, root, dTot, d, h1, h2);
    ForwardDistance(maxAcc, b, root, dTot, k1, k2);
  }

  lemma HalfWayOf(a: real, diff: real, sum: real)
    requires a > 0.0
    ensures 2.0 * (a * HalfWay(TimeFor(diff, a), sum)) == diff * sum
  {
  }

  lemma ForwardPeak(maxVel: real, a: real, b: real, root: real, dTot: real, d: real, h1: real, h2: real)
    requires maxVel > 0.0 && a > 0.0 && b >= 0.0 && root >= 0.0
    requires root * root == 0.5 * (b * b) + a * dTot && d <= dTot <= h1 + h2
    requires 2.0 * (a * d) == b * b
    requires 2.0 * (a * h1) == (maxVel - b) * (maxVel + b) && 2.0 * (a * h2) == maxVel * maxVel
    ensures b <= root <= maxVel
  {
    DifferenceOfSquares(maxVel, b);
    Distribute(a, h1, h2);
    Scale(d, dTot, a);
    Scale(dTot, h1 + h2, a);
    PeakBetween(maxVel, b, root, a * dTot);
  }

  lemma ForwardDistance(a: real, b: real, root: real, dTot: real, k1: real, k2: real)
    requires a > 0.0 && root * root == 0.5 * (b * b) + a * dTot
    requires 2.0 * (a * k1) == (root - b) * (root + b) && 2.0 * (a * k2) == root * root
    ensures k1 + k2 == dTot
  {
  }

  lemma PeakBetween(maxVel: real, b: real, root: real, x: real)
    requires maxVel > 0.0 && b >= 0.0 && root >= 0.0
    requires root * root == 0.5 * (b * b) + x
    requires 0.5 * (b * b) <= x <= maxVel * maxVel - 0.5 * (b * b)
    ensures b <= root <= maxVel
  {
    SquareLe(b, root);
    SquareLe(root, maxVel);
  }

  lemma NoTimeLeft(maxVel: real, x: real)
    requires maxVel > 0.0 && !(TimeFor(x, maxVel) > 0.0)
    ensures x <= 0.0
  {
  }

  lemma TriangleMoves(maxVel: real, maxAcc: real, pos: real, vel: real, posRef: real, root: real, velSt: real)
    requires maxVel > 0.0 && maxAcc > 0.0 && -maxVel <= vel <= maxVel
    requires IsRoot(root, Radicand(maxAcc, pos, vel, posRef))
    requires var p := Trapezoid(maxVel, maxAcc, pos, vel, posRef, velSt); p.signM != 0.0 && !p.shape
    ensures Moves(Triangle(Trapezoid(maxVel, maxAcc, pos, vel, posRef, velSt), maxAcc, root), maxVel, maxAcc)
  {
    hide HalfWay, TimeFor, Accelerates, Decelerates, Times, Moves, IsRoot, Radicand;
    var p := Trapezoid(maxVel, maxAcc, pos, vel, posRef, velSt);
    var q := Triangle(p, maxAcc, root);
    var b := Abs(vel);
    DistanceToGo(maxVel, maxAcc, pos, vel, posRef, velSt);
    NoTimeLeft(maxVel, p.dVel);
    RadicandValue(maxVel, maxAcc, pos, vel, posRef, velSt);
    RootFacts(root, Radicand(maxAcc, pos, vel, posRef));
    Stopping(maxAcc, root);
    if p.signM != Sign(vel) {
      BrakingTriangle(maxVel, maxAcc, root, p.dTot);
      BrakeThenAccelerate(maxAcc, b, root);
    } else {
      ForwardTriangle(maxVel, maxAcc, b, root, p.dTot);
      AccelerateOnly(maxAcc, b, root);
    }
    MovesIf(q, maxVel, maxAcc);
  }

  lemma RootFacts(root: real, x: real)
    requires IsRoot(root, x)
    ensures root >= 0.0 && root * root == x
  {
  }

  lemma RadicandValue(maxVel: real, maxAcc: real, pos: real, vel: real, posRef: real, velSt: real)
    requires maxVel > 0.0 && maxAcc > 0.0
    requires Trapezoid(maxVel, maxAcc, pos, vel, posRef, velSt).signM != 0.0
    ensures var p := Trapezoid(maxVel, maxAcc, pos, vel, posRef, velSt);
            Radicand(maxAcc, pos, vel, posRef) ==
            if p.signM != Sign(vel) then maxAcc * p.dTot else 0.5 * (Abs(vel) * Abs(vel)) + maxAcc * p.dTot
  {
    DistanceToGo(maxVel, maxAcc, pos, vel, posRef, velSt);
    SquareOfAbs(vel);
    hide HalfWay, TimeFor;
  }

  // ----- Sampling a plan -----

  lemma RampIsCovered(p: real, v: real, s: real, a: real, u: real)
    requires s == 1.0 || s == -1.0
    ensures RampPos(p, v, s, a, u) == p + (if s == 1.0 then 1.0 else -1.0) * Covered(Times(s, v), a, u)
    ensures RampVel(v, s, a, u) == (if s == 1.0 then 1.0 else -1.0) * Reached(Times(s, v), a, u)
  {
  }

  lemma BrakeIsCovered(p: real, s: real, d: real, v: real, a: real, u: real)
    requires s == 1.0 || s == -1.0
    ensures BrakePos(p, s, d, v, a, u) == p + (if s == 1.0 then 1.0 else -1.0) * (d + Covered(v, -a, u))
    ensures BrakeVel(s, v, a, u) == (if s == 1.0 then 1.0 else -1.0) * Reached(v, -a, u)
  {
  }

  lemma CruiseIsLinear(p: real, s: real, d: real, v: real, u: real)
    requires s == 1.0 || s == -1.0
    ensures CruisePos(p, s, d, v, u) == p + (if s == 1.0 then 1.0 else -1.0) * (d + v * u)
    ensures Times(s, v) == (if s == 1.0 then 1.0 else -1.0) * v
  {
  }

  function Directed(p: Plan, x: real): real {
    if p.signM == 1.0 then x else -x
  }

  /** The deceleration of a plan is the last part of its course. */
  lemma BrakeIsCourse(p: Plan, maxVel: real, maxAcc: real, t: real)
    requires Moves(p, maxVel, maxAcc)
    ensures var c := CourseOf(p, maxVel, maxAcc);
            var d := -p.dBrk + p.dAcc + (if p.shape then p.dVel else 0.0);
            var u := t - p.tBrk - p.tAcc - (if p.shape then p.tVel else 0.0);
            && BrakePos(p.oldPos, p.signM, d, c.vs, maxAcc, u) == Along(p, Way3(c, t))
            && BrakeVel(p.signM, c.vs, maxAcc, u) == Directed(p, Speed3(c, t))
  {
    hide Accelerates, Decelerates, Covered, Reached, BrakePos, BrakeVel, Distance, Times;
    var c := CourseOf(p, maxVel, maxAcc);
    var d := if p.shape then p.dVel else 0.0;
    CruiseProduct(maxVel, p.tVel);
    assert c.vs * c.tv == d;
    assert t - T2(c) == t - p.tBrk - p.tAcc - (if p.shape then p.tVel else 0.0);
    BrakeIsCovered(p.oldPos, p.signM, -p.dBrk + p.dAcc + d, c.vs, maxAcc, t - T2(c));
  }

  /** The samples of a moving plan are way and speed along its course. */
  lemma SampleIsCourse(p: Plan, maxVel: real, maxAcc: real, t: real)
    requires Moves(p, maxVel, maxAcc) && 0.0 <= t
    ensures var c := CourseOf(p, maxVel, maxAcc);
            var s := SampleAt(p, maxVel, maxAcc, t);
            && s.pos == Along(p, Way(c, t)) && s.vel == Directed(p, Speed(c, t))
            && (s.done ==> t >= T3(c))
  {
    hide Accelerates, Decelerates, Covered, Reached, RampPos, RampVel, CruisePos, BrakePos, BrakeVel, Distance, Times;
    hide Way3, Speed3;
    var c := CourseOf(p, maxVel, maxAcc);
    var u := t - p.tBrk - p.tAcc;
    var d := -p.dBrk + p.dAcc;
    if t <= c.t1 {
      RampIsCovered(p.oldPos, p.oldVel, p.signM, maxAcc, t);
    } else if t < T2(c) {
      CruiseIsLinear(p.oldPos, p.signM, d, maxVel, u);
    } else if t < T3(c) {
      BrakeIsCourse(p, maxVel, maxAcc, t);
    }
  }

  lemma CruiseProduct(v: real, t: real)
    ensures v * t == Times(v, t)
  {
  }

  // ----- Every plan is sound -----

  /** A plan that was made for exactly the stopping point of a moving axis: no direction. */
  predicate Undirected(p: Plan, maxVel: real) {
    && p.signM == 0.0 && p.oldVel != 0.0 && -maxVel <= p.oldVel <= maxVel
    && !p.shape && p.tBrk + p.tAcc > 0.0 && p.tDec > 0.0
  }

  /** What a plan from a position at a velocity to a target owes, for the samples at all times. */
  ghost predicate Sound(p: Plan, maxVel: real, maxAcc: real, pos: real, vel: real, posRef: real) {
    && (var s := SampleAt(p, maxVel, maxAcc, 0.0); s.pos == pos && s.vel == vel)
    && (forall t :: 0.0 <= t ==> -maxVel <= SampleAt(p, maxVel, maxAcc, t).vel <= maxVel)
    && (forall t, u :: 0.0 <= t <= u ==> SmoothBetween(p, maxVel, maxAcc, t, u))
    && (forall t :: 0.0 <= t && t >= EndOf(p) ==>
          SampleAt(p, maxVel, maxAcc, t).pos == posRef && SampleAt(p, maxVel, maxAcc, t).vel == 0.0)
    && (forall t :: 0.0 <= t && SampleAt(p, maxVel, maxAcc, t).done ==> t >= EndOf(p))
    && (forall t :: 0.0 <= t && t >= p.tBrk ==> NotPast(p, SampleAt(p, maxVel, maxAcc, t).pos, posRef))
  }

  function EndOf(p: Plan): real {
    p.tBrk + p.tAcc + (if p.shape then p.tVel else 0.0) + p.tDec
  }

  predicate NotPast(p: Plan, pos: real, posRef: real) {
    if p.signM == 1.0 then pos <= posRef else if p.signM == -1.0 then pos >= posRef else true
  }

  /** Between two times the position changes by at most maxVel and the velocity by at most
      maxAcc times the time. */
  predicate SmoothBetween(p: Plan, maxVel: real, maxAcc: real, t: real, u: real) {
    var s, r := SampleAt(p, maxVel, maxAcc, t), SampleAt(p, maxVel, maxAcc, u);
    Steady(r.pos - s.pos, u - t, maxVel, false) && Steady(r.vel - s.vel, u - t, maxAcc, false)
  }

  lemma SteadyEitherWay(x: real, dt: real, v: real, forward: bool)
    requires Steady(x, dt, v, forward)
    ensures Steady(x, dt, v, false) && Steady(-x, dt, v, false)
  {
  }

  lemma MovingIsSmooth(p: Plan, maxVel: real, maxAcc: real, t: real, u: real)
    requires Moves(p, maxVel, maxAcc) && 0.0 <= t <= u
    ensures SmoothBetween(p, maxVel, maxAcc, t, u)
  {
    var c := CourseOf(p, maxVel, maxAcc);
    SampleIsCourse(p, maxVel, maxAcc, t);
    SampleIsCourse(p, maxVel, maxAcc, u);
    WayIsSteady(c, maxVel, t, u);
    SpeedIsSteady(c, maxVel, t, u);
    hide Balanced, SampleAt, Way, Speed, Steady, Distance;
    SteadyEitherWay(Way(c, u) - Way(c, t), u - t, maxVel, t >= c.tb);
    SteadyEitherWay(Speed(c, u) - Speed(c, t), u - t, maxAcc, false);
  }

  lemma MovingSamples(p: Plan, maxVel: real, maxAcc: real, t: real)
    requires Moves(p, maxVel, maxAcc) && 0.0 <= t
    ensures var s := SampleAt(p, maxVel, maxAcc, t);
            && -maxVel <= s.vel <= maxVel
            && (t >= EndOf(p) ==> s.pos == p.posRef && s.vel == 0.0)
            && (s.done ==> t >= EndOf(p))
            && (t >= p.tBrk ==> NotPast(p, s.pos, p.posRef))
            && EndOf(p) == T3(CourseOf(p, maxVel, maxAcc)) >= p.tBrk
  {
    var c := CourseOf(p, maxVel, maxAcc);
    SampleIsCourse(p, maxVel, maxAcc, t);
    SpeedBounds(c, maxVel, t);
    hide Accelerates, Decelerates, SampleAt, Way, Speed, Distance, Times;
    if t >= c.tb {
      NeverOvershoots(c, maxVel, t);
    }
  }

  lemma MovingStart(p: Plan, maxVel: real, maxAcc: real)
    requires Moves(p, maxVel, maxAcc)
    ensures var s := SampleAt(p, maxVel, maxAcc, 0.0); s.pos == p.oldPos && s.vel == p.oldVel
  {
  }

  lemma MovingIsSound(p: Plan, maxVel: real, maxAcc: real)
    requires Moves(p, maxVel, maxAcc)
    ensures Sound(p, maxVel, maxAcc, p.oldPos, p.oldVel, p.posRef)
  {
    hide Moves, SampleAt, SmoothBetween, NotPast;
    MovingStart(p, maxVel, maxAcc);
    forall t, u | 0.0 <= t <= u
      ensures SmoothBetween(p, maxVel, maxAcc, t, u)
    {
      MovingIsSmooth(p, maxVel, maxAcc, t, u);
    }
    forall t | 0.0 <= t
      ensures var s := SampleAt(p, maxVel, maxAcc, t);
              && -maxVel <= s.vel <= maxVel
              && (t >= EndOf(p) ==> s.pos == p.posRef && s.vel == 0.0)
              && (s.done ==> t >= EndOf(p))
              && (t >= p.tBrk ==> NotPast(p, s.pos, p.posRef))
    {
      MovingSamples(p, maxVel, maxAcc, t);
    }
  }

  lemma RestingSample(p: Plan, maxVel: real, maxAcc: real, t: real)
    requires Rests(p) && 0.0 <= t
    ensures var s := SampleAt(p, maxVel, maxAcc, t); s.pos == p.oldPos && s.vel == 0.0
  {
  }

  lemma RestingIsSound(p: Plan, maxVel: real, maxAcc: real)
    requires Rests(p) && maxVel > 0.0 && maxAcc > 0.0
    ensures Sound(p, maxVel, maxAcc, p.oldPos, p.oldVel, p.posRef)
  {
    hide SampleAt, Steady;
    forall t | 0.0 <= t
      ensures SampleAt(p, maxVel, maxAcc, t).pos == p.oldPos && SampleAt(p, maxVel, maxAcc, t).vel == 0.0
    {
      RestingSample(p, maxVel, maxAcc, t);
    }
    forall t, u | 0.0 <= t <= u
      ensures SmoothBetween(p, maxVel, maxAcc, t, u)
    {
      Rest(u - t, maxVel);
      Rest(u - t, maxAcc);
      SteadyEitherWay(0.0, u - t, maxVel, true);
      SteadyEitherWay(0.0, u - t, maxAcc, true);
    }
  }

  /** A plan without a direction from rest stays at rest: the target is the position. */
  lemma NoDirectionAtRest(maxVel: real, maxAcc: real, pos: real, posRef: real, root: real, velSt: real)
    requires maxVel > 0.0 && maxAcc > 0.0
    requires IsRoot(root, Radicand(maxAcc, pos, 0.0, posRef))
    requires Trapezoid(maxVel, maxAcc, pos, 0.0, posRef, velSt).signM == 0.0
    ensures Rests(MakePlan(maxVel, maxAcc, pos, 0.0, posRef, root, velSt))
  {
    var p := Trapezoid(maxVel, maxAcc, pos, 0.0, posRef, velSt);
    AtRest(maxAcc);
    SignTimes(0.0, HalfWay(TimeFor(0.0, maxAcc), 0.0));
    assert posRef == pos && p.dTot == 0.0;
    CruiseProduct(maxAcc, 0.0);
    CruiseProduct(0.0, 0.0);
    RootFacts(root, Radicand(maxAcc, pos, 0.0, posRef));
    if root > 0.0 { PositiveProduct(root, root); }
    FullSpeedWay(maxVel, maxAcc);
    TimeForFacts(p.dVel, maxVel);
    hide HalfWay, TimeFor, Times, IsRoot;
  }

  lemma AtRest(a: real)
    requires a > 0.0
    ensures TimeFor(0.0, a) == 0.0 && HalfWay(0.0, 0.0) == 0.0
  {
  }

  lemma FullSpeedWay(v: real, a: real)
    requires v > 0.0 && a > 0.0
    ensures HalfWay(TimeFor(v, a), v) > 0.0
  {
    PositiveTime(v, a);
    PositiveProduct(TimeFor(v, a), v);
  }

  /** Every plan the generator makes, from any position and admissible velocity to any target
      but the exact stopping point, in all four shapes: it starts where the axis is, keeps
      the speed limit, changes position and velocity no faster than the limits at any time
      and across its phase boundaries, ends at the target at rest, and once it has braked
      never passes the target. */
  lemma PlanIsSound(maxVel: real, maxAcc: real, pos: real, vel: real, posRef: real, root: real, velSt: real)
    requires maxVel > 0.0 && maxAcc > 0.0 && -maxVel <= vel <= maxVel
    requires IsRoot(root, Radicand(maxAcc, pos, vel, posRef))
    requires Regular(maxAcc, pos, vel, posRef)
    ensures var p := MakePlan(maxVel, maxAcc, pos, vel, posRef, root, velSt);
            && (Moves(p, maxVel, maxAcc) || Rests(p))
            && p.tBrk >= 0.0 && p.tAcc >= 0.0 && p.tDec >= 0.0 && (p.shape ==> p.tVel >= 0.0)
            && (!p.shape ==> 0.0 <= p.velSt <= maxVel)
            && Sound(p, maxVel, maxAcc, pos, vel, posRef)
  {
    hide HalfWay, TimeFor, Times, IsRoot, Radicand, Accelerates, Decelerates, Sound;
    var t := Trapezoid(maxVel, maxAcc, pos, vel, posRef, velSt);
    var p := MakePlan(maxVel, maxAcc, pos, vel, posRef, root, velSt);
    if t.signM == 0.0 {
      assert vel == 0.0;
      NoDirectionAtRest(maxVel, maxAcc, pos, posRef, root, velSt);
      RestingIsSound(p, maxVel, maxAcc);
      RestingDurations(maxVel, maxAcc, pos, posRef, root, velSt);
    } else {
      if t.shape {
        TrapezoidMoves(maxVel, maxAcc, pos, vel, posRef, velSt);
      } else {
        TriangleMoves(maxVel, maxAcc, pos, vel, posRef, root, velSt);
      }
      MovingIsSound(p, maxVel, maxAcc);
    }
  }

  lemma RestingDurations(maxVel: real, maxAcc: real, pos: real, posRef: real, root: real, velSt: real)
    requires maxVel > 0.0 && maxAcc > 0.0
    requires IsRoot(root, Radicand(maxAcc, pos, 0.0, posRef))
    requires Trapezoid(maxVel, maxAcc, pos, 0.0, posRef, velSt).signM == 0.0
    ensures var p := MakePlan(maxVel, maxAcc, pos, 0.0, posRef, root, velSt);
            p.tBrk >= 0.0 && p.tAcc >= 0.0 && p.tDec >= 0.0 && (!p.shape ==> p.velSt == 0.0)
  {
    NoDirectionAtRest(maxVel, maxAcc, pos, posRef, root, velSt);
  }

  // ----- The exception -----

  lemma UndirectedSample(p: Plan, maxVel: real, maxAcc: real, t: real)
    requires p.signM == 0.0
    ensures var s := SampleAt(p, maxVel, maxAcc, t);
            && (t <= p.tBrk + p.tAcc ==> s.pos == p.oldPos + p.oldVel * t && s.vel == p.oldVel)
            && (p.tBrk + p.tAcc < t && !s.done ==> s.pos == p.oldPos && s.vel == 0.0)
  {
  }

  lemma SquaresOrdered(b: real, v: real)
    requires 0.0 < b <= v
    ensures 0.0 < b * b <= v * v
  {
  }

  /** Distances in the order of the squares of the velocities. */
  lemma DistancesOrdered(a: real, d: real, h: real, x: real, y: real)
    requires a > 0.0 && 2.0 * (a * d) == x && 2.0 * (a * h) == y && 0.0 < x <= y
    ensures a * d > 0.0 && 0.0 < d <= h
  {
  }

  /** The first plan for such a target has no direction and no time at the peak. */
  lemma ExactStopTrapezoid(maxVel: real, maxAcc: real, pos: real, vel: real, posRef: real, velSt: real)
    requires maxVel > 0.0 && maxAcc > 0.0 && -maxVel <= vel <= maxVel && vel != 0.0
    requires posRef == Stop(maxAcc, pos, vel)
    ensures var p := Trapezoid(maxVel, maxAcc, pos, vel, posRef, velSt);
            var d := HalfWay(TimeFor(Abs(vel), maxAcc), Abs(vel));
            && p.signM == 0.0 && !p.shape && p.tBrk == TimeFor(Abs(vel), maxAcc)
            && maxAcc * d > 0.0 && Radicand(maxAcc, pos, vel, posRef) == Times(maxAcc, d)
  {
    var b := Abs(vel);
    var d := HalfWay(TimeFor(b, maxAcc), b);
    var h := HalfWay(TimeFor(maxVel, maxAcc), maxVel);
    HalfWayOf(maxAcc, b, b);
    HalfWayOf(maxAcc, maxVel, maxVel);
    SquaresOrdered(b, maxVel);
    DistancesOrdered(maxAcc, d, h, b * b, maxVel * maxVel);
    SignTimes(Sign(vel), d);
    SignTimes(0.0, d);
    var t := Trapezoid(maxVel, maxAcc, pos, vel, posRef, velSt);
    TimeForFacts(t.dVel, maxVel);
    hide HalfWay, TimeFor, Times;
    assert Abs(posRef - pos + Times(0.0, d)) == d;
  }

  /** A target at exactly the stopping point of a moving axis gives a plan without a direction:
      a triangle that runs on at the old velocity for a while. */
  lemma ExactStopIsUndirected(maxVel: real, maxAcc: real, pos: real, vel: real, posRef: real, root: real, velSt: real)
    requires maxVel > 0.0 && maxAcc > 0.0 && -maxVel <= vel <= maxVel && vel != 0.0
    requires IsRoot(root, Radicand(maxAcc, pos, vel, posRef)) && posRef == Stop(maxAcc, pos, vel)
    ensures var p := MakePlan(maxVel, maxAcc, pos, vel, posRef, root, velSt);
            p.signM == 0.0 && !p.shape && p.tBrk + p.tAcc > 0.0 && p.tDec > 0.0
  {
    ExactStopTrapezoid(maxVel, maxAcc, pos, vel, posRef, velSt);
    CruiseProduct(maxAcc, HalfWay(TimeFor(Abs(vel), maxAcc), Abs(vel)));
    RootFacts(root, Radicand(maxAcc, pos, vel, posRef));
    PositiveRoot(root);
    PositiveTime(root, maxAcc);
    PositiveTime(Abs(vel), maxAcc);
    hide HalfWay, TimeFor, IsRoot, Radicand, Stop, Trapezoid, Times;
  }

  lemma PositiveRoot(x: real)
    requires x >= 0.0 && x * x > 0.0
    ensures x > 0.0
  {
  }

  lemma PositiveTime(x: real, a: real)
    requires x > 0.0 && a > 0.0
    ensures TimeFor(x, a) > 0.0
  {
  }

  /** A time shorter than d in which v makes less than x. */
  lemma ShortTime(x: real, v: real, d: real) returns (dt: real)
    requires x > 0.0 && v > 0.0 && d > 0.0
    ensures 0.0 < dt < d && v * dt < x
  {
    PositiveTime(x, v);
    TimeForFacts(x, v);
    dt := (if TimeFor(x, v) < d then TimeFor(x, v) else d) / 2.0;
    Scale(dt, TimeFor(x, v) / 2.0, v);
  }

  /** Such a plan jumps back to where it began: no time is too short for that. */
  lemma UndirectedJumps(p: Plan, maxVel: real, maxAcc: real)
    requires maxVel > 0.0 && p.signM == 0.0 && !p.shape && p.tBrk + p.tAcc > 0.0 && p.tDec > 0.0 && p.oldVel != 0.0
    ensures exists t, u :: 0.0 <= t <= u && !SmoothBetween(p, maxVel, maxAcc, t, u)
  {
    var t := p.tBrk + p.tAcc;
    var x := p.oldVel * t;
    NonZeroProduct(p.oldVel, t);
    var dt := ShortTime(Abs(x), maxVel, p.tDec);
    UndirectedSample(p, maxVel, maxAcc, t);
    UndirectedSample(p, maxVel, maxAcc, t + dt);
    var u := t + dt;
    assert u - t == dt;
    assert !Steady(-x, dt, maxVel, false);
    assert !SmoothBetween(p, maxVel, maxAcc, t, u);
  }

  lemma NonZeroProduct(x: real, y: real)
    requires x != 0.0 && y != 0.0
    ensures x * y != 0.0
  {
  }

  /** The exception is exact: a plan is smooth at all times just when its target is not the
      exact stopping point of a moving axis. */
  lemma SmoothExactlyWhenRegular(maxVel: real, maxAcc: real, pos: real, vel: real, posRef: real,
                                 root: real, velSt: real)
    requires maxVel > 0.0 && maxAcc > 0.0 && -maxVel <= vel <= maxVel
    requires IsRoot(root, Radicand(maxAcc, pos, vel, posRef))
    ensures var p := MakePlan(maxVel, maxAcc, pos, vel, posRef, root, velSt);
            (forall t, u :: 0.0 <= t <= u ==> SmoothBetween(p, maxVel, maxAcc, t, u)) <==>
            Regular(maxAcc, pos, vel, posRef)
  {
    hide IsRoot, Radicand, MakePlan, SmoothBetween;
    if Regular(maxAcc, pos, vel, posRef) {
      PlanIsSound(maxVel, maxAcc, pos, vel, posRef, root, velSt);
    } else {
      var p := MakePlan(maxVel, maxAcc, pos, vel, posRef, root, velSt);
      ExactStopIsUndirected(maxVel, maxAcc, pos, vel, posRef, root, velSt);
      PlanKeepsVelocity(maxVel, maxAcc, pos, vel, posRef, root, velSt);
      UndirectedJumps(p, maxVel, maxAcc);
    }
  }

  lemma PlanKeepsVelocity(maxVel: real, maxAcc: real, pos: real, vel: real, posRef: real, root: real, velSt: real)
    requires maxVel != 0.0 && maxAcc != 0.0
    ensures var p := MakePlan(maxVel, maxAcc, pos, vel, posRef, root, velSt);
            p.oldVel == vel && p.oldPos == pos && p.posRef == posRef
  {
  }

  // ----- Runs -----

  /** The state is a sample of its plan. */
  ghost predicate Fits(g: Gen) {
    && g.maxVel > 0.0 && g.maxAcc > 0.0 && g.oldTime <= g.lastTime
    && (Moves(g.plan, g.maxVel, g.maxAcc) || Rests(g.plan) || Undirected(g.plan, g.maxVel))
    && (var s := SampleAt(g.plan, g.maxVel, g.maxAcc, g.lastTime - g.oldTime);
        && g.pos == s.pos && g.vel == s.vel
        && (g.finished ==> s.done))
  }

  lemma DoneStays(p: Plan, maxVel: real, maxAcc: real, t: real, u: real)
    requires SampleAt(p, maxVel, maxAcc, t).done && t <= u
    ensures SampleAt(p, maxVel, maxAcc, u).done
    ensures SampleAt(p, maxVel, maxAcc, u).pos == p.posRef && SampleAt(p, maxVel, maxAcc, u).vel == 0.0
  {
  }

  lemma FitsBounds(g: Gen)
    requires Fits(g)
    ensures -g.maxVel <= g.vel <= g.maxVel
    ensures g.finished ==> g.pos == g.plan.posRef && g.vel == 0.0
  {
    var t := g.lastTime - g.oldTime;
    hide SampleAt, Balanced;
    if Moves(g.plan, g.maxVel, g.maxAcc) {
      MovingSamples(g.plan, g.maxVel, g.maxAcc, t);
    } else if Rests(g.plan) {
      RestingSample(g.plan, g.maxVel, g.maxAcc, t);
    } else {
      UndirectedSample(g.plan, g.maxVel, g.maxAcc, t);
      if SampleAt(g.plan, g.maxVel, g.maxAcc, t).done { DoneStays(g.plan, g.maxVel, g.maxAcc, t, t); }
    }
    if g.finished { DoneStays(g.plan, g.maxVel, g.maxAcc, t, t); }
  }

  /** A state later than the end of its plan is at the target, at rest. */
  lemma Arrives(g: Gen)
    requires Fits(g) && !Undirected(g.plan, g.maxVel) && g.lastTime - g.oldTime >= EndOf(g.plan)
    ensures g.pos == g.plan.posRef && g.vel == 0.0
  {
    var t := g.lastTime - g.oldTime;
    if Moves(g.plan, g.maxVel, g.maxAcc) {
      MovingSamples(g.plan, g.maxVel, g.maxAcc, t);
      hide SampleAt, Moves, EndOf;
    } else {
      RestingSample(g.plan, g.maxVel, g.maxAcc, t);
      hide SampleAt, EndOf;
    }
  }

  lemma FreshFits(maxVel: real, maxAcc: real, initPos: real, now: real)
    requires maxVel > 0.0 && maxAcc > 0.0
    ensures Fits(Fresh(maxVel, maxAcc, initPos, now))
  {
  }

  /** A reset in mid-motion leaves a state like a fresh one: what holds of runs from there holds again. */
  lemma ResetFits(g: Gen, initPos: real)
    requires Fits(g)
    ensures Fits(ResetTo(g, initPos)) && !Undirected(ResetTo(g, initPos).plan, g.maxVel)
  {
    var r := ResetTo(g, initPos);
    var t := g.lastTime - g.oldTime;
    RestingSample(r.plan, g.maxVel, g.maxAcc, t);
    if g.finished {
      DoneLate(g.plan, g.maxVel, g.maxAcc, t);
      hide RampPos, RampVel, CruisePos, BrakePos, BrakeVel, Times, Moves;
    }
  }

  /** A plan that is done took some time. */
  lemma DoneLate(p: Plan, maxVel: real, maxAcc: real, t: real)
    requires 0.0 <= t && SampleAt(p, maxVel, maxAcc, t).done
    requires Moves(p, maxVel, maxAcc) || Rests(p) || Undirected(p, maxVel)
    ensures t > 0.0
  {
  }

  /** A call of update that the clock and the arithmetic allow: root is the square root a new plan takes. */
  datatype Call = Call(posRef: real, now: real, root: real)

  predicate Possible(g: Gen, c: Call)
    requires g.maxAcc != 0.0
  {
    && g.lastTime <= c.now
    && (c.posRef != g.plan.posRef ==> IsRoot(c.root, Radicand(g.maxAcc, g.pos, g.vel, c.posRef)))
  }

  /** The call does not ask for the exact stopping point of a moving axis. */
  predicate Proper(g: Gen, c: Call)
    requires g.maxAcc != 0.0
  {
    c.posRef != g.plan.posRef ==> Regular(g.maxAcc, g.pos, g.vel, c.posRef)
  }

  /** How far apart two states of a run may be. */
  predicate Smooth(g: Gen, h: Gen) {
    && Steady(h.pos - g.pos, h.lastTime - g.lastTime, g.maxVel, false)
    && Steady(h.vel - g.vel, h.lastTime - g.lastTime, g.maxAcc, false)
  }

  function Step(g: Gen, c: Call): Gen
    requires g.maxVel != 0.0 && g.maxAcc != 0.0
  {
    Next(g, c.posRef, c.now, c.root)
  }

  /** A call with the target unchanged goes on along the plan. */
  lemma SamePlanKeeps(g: Gen, c: Call)
    requires Fits(g) && Possible(g, c) && c.posRef == g.plan.posRef
    ensures Fits(Step(g, c)) && Step(g, c).plan == g.plan
    ensures !Undirected(g.plan, g.maxVel) ==> Smooth(g, Step(g, c))
  {
    hide SampleAt, Moves, Rests, Radicand, IsRoot, Steady, Undirected;
    var t, u := g.lastTime - g.oldTime, c.now - g.oldTime;
    if g.finished {
      DoneStays(g.plan, g.maxVel, g.maxAcc, t, u);
    }
    if Moves(g.plan, g.maxVel, g.maxAcc) {
      MovingIsSmooth(g.plan, g.maxVel, g.maxAcc, t, u);
    } else if Rests(g.plan) {
      RestingIsSound(g.plan, g.maxVel, g.maxAcc);
      assert SmoothBetween(g.plan, g.maxVel, g.maxAcc, t, u);
    }
  }

  /** A plan without a direction begins where the axis is. */
  lemma UndirectedStart(maxVel: real, maxAcc: real, pos: real, vel: real, posRef: real, root: real, velSt: real)
    requires maxVel > 0.0 && maxAcc > 0.0 && -maxVel <= vel <= maxVel
    requires IsRoot(root, Radicand(maxAcc, pos, vel, posRef)) && !Regular(maxAcc, pos, vel, posRef)
    ensures var p := MakePlan(maxVel, maxAcc, pos, vel, posRef, root, velSt);
            && Undirected(p, maxVel)
            && SampleAt(p, maxVel, maxAcc, 0.0).pos == pos && SampleAt(p, maxVel, maxAcc, 0.0).vel == vel
  {
    var p := MakePlan(maxVel, maxAcc, pos, vel, posRef, root, velSt);
    ExactStopIsUndirected(maxVel, maxAcc, pos, vel, posRef, root, velSt);
    PlanKeepsVelocity(maxVel, maxAcc, pos, vel, posRef, root, velSt);
    UndirectedSample(p, maxVel, maxAcc, 0.0);
    hide MakePlan, SampleAt, IsRoot, Radicand;
  }

  /** A call with a new target, in mid-motion too, makes a plan that begins where the axis is. */
  lemma NewPlanKeeps(g: Gen, c: Call)
    requires Fits(g) && Possible(g, c) && c.posRef != g.plan.posRef
    ensures Fits(Step(g, c))
    ensures Proper(g, c) ==> !Undirected(Step(g, c).plan, g.maxVel) && Smooth(g, Step(g, c))
  {
    FitsBounds(g);
    var p := MakePlan(g.maxVel, g.maxAcc, g.pos, g.vel, c.posRef, c.root, g.plan.velSt);
    var u := c.now - g.lastTime;
    hide SampleAt, Radicand, IsRoot, Steady, MakePlan, EndOf, NotPast, Stop;
    if Proper(g, c) {
      PlanIsSound(g.maxVel, g.maxAcc, g.pos, g.vel, c.posRef, c.root, g.plan.velSt);
      assert SmoothBetween(p, g.maxVel, g.maxAcc, 0.0, u);
    } else {
      UndirectedStart(g.maxVel, g.maxAcc, g.pos, g.vel, c.posRef, c.root, g.plan.velSt);
    }
  }

  /** Every call keeps the state a sample of its plan, and joins smoothly unless a plan without
      a direction is involved. */
  lemma StepKeeps(g: Gen, c: Call)
    requires Fits(g) && Possible(g, c)
    ensures Fits(Step(g, c))
    ensures Proper(g, c) && !Undirected(g.plan, g.maxVel) ==>
              !Undirected(Step(g, c).plan, g.maxVel) && Smooth(g, Step(g, c))
  {
    hide Fits, Undirected, Smooth, Step;
    if c.posRef == g.plan.posRef {
      SamePlanKeeps(g, c);
    } else {
      NewPlanKeeps(g, c);
    }
  }

  // ----- The finished flag -----

  /** The plan has been followed to its end: that long after it was made. */
  predicate Over(p: Plan, t: real) {
    t >= EndOf(p) && t > p.tBrk + p.tAcc
  }

  lemma DoneExactly(p: Plan, maxVel: real, maxAcc: real, t: real)
    requires Moves(p, maxVel, maxAcc) || Rests(p) || Undirected(p, maxVel)
    ensures SampleAt(p, maxVel, maxAcc, t).done <==> Over(p, t)
  {
    hide RampPos, RampVel, CruisePos, BrakePos, BrakeVel, Times, Accelerates, Decelerates, Distance;
  }

  /** The flag tells whether the plan is over. */
  predicate Told(g: Gen) {
    g.finished <==> Over(g.plan, g.lastTime - g.oldTime)
  }

  /** Every update of every run leaves the flag right, whatever it was before; elapsed time is
      counted from the update before the one that changed the target. */
  lemma StepTells(g: Gen, c: Call)
    requires Fits(g) && Possible(g, c)
    ensures var h := Step(g, c);
            && Told(h) && h.plan.posRef == c.posRef && h.lastTime == c.now
            && h.oldTime == (if c.posRef == g.plan.posRef then g.oldTime else g.lastTime)
            && (c.posRef == g.plan.posRef ==> h.plan == g.plan)
            && h.acc == SampleAt(h.plan, g.maxVel, g.maxAcc, h.lastTime - h.oldTime).acc
  {
    StepKeeps(g, c);
    var h := Step(g, c);
    DoneExactly(h.plan, g.maxVel, g.maxAcc, h.lastTime - h.oldTime);
    hide SampleAt, Moves, Rests, Undirected, Radicand, IsRoot, Over, Trapezoid, Triangle;
    if c.posRef == g.plan.posRef {
      if g.finished {
        DoneStays(g.plan, g.maxVel, g.maxAcc, g.lastTime - g.oldTime, c.now - g.oldTime);
      }
    } else {
      PlanKeepsVelocity(g.maxVel, g.maxAcc, g.pos, g.vel, c.posRef, c.root, g.plan.velSt);
    }
  }

  /** The motion comes to an end: the first update later than that reports it finished, at the
      target, at rest, whatever came before. */
  lemma MotionEnds(g: Gen, c: Call)
    requires Fits(g) && Possible(g, c) && c.posRef == g.plan.posRef && c.now - g.oldTime > EndOf(g.plan)
    ensures var h := Step(g, c); h.finished && h.pos == c.posRef && h.vel == 0.0
  {
    StepTells(g, c);
    SamePlanKeeps(g, c);
    FitsBounds(Step(g, c));
    EndIsLate(g.plan, g.maxVel, g.maxAcc);
    hide Fits, Step, Moves, Rests, Undirected;
  }

  lemma EndIsLate(p: Plan, maxVel: real, maxAcc: real)
    requires Moves(p, maxVel, maxAcc) || Rests(p) || Undirected(p, maxVel)
    ensures EndOf(p) >= p.tBrk + p.tAcc
  {
    hide Accelerates, Decelerates, Distance, Times;
  }

  lemma RampSlope(v: real, s: real, a: real, t: real, u: real)
    ensures RampVel(v, s, a, u) - RampVel(v, s, a, t) == Times(s, a) * (u - t)
  {
    ProductBySteps(s * a, t, u);
  }

  lemma BrakeSlope(s: real, v: real, a: real, t: real, u: real)
    ensures BrakeVel(s, v, a, u) - BrakeVel(s, v, a, t) == -Times(s, a) * (u - t)
  {
    assert BrakeVel(s, v, a, u) == s * v - s * a * u && BrakeVel(s, v, a, t) == s * v - s * a * t;
    ProductBySteps(s * a, t, u);
  }

  lemma ProductBySteps(x: real, t: real, u: real)
    ensures x * u - x * t == x * (u - t)
  {
  }

  /** Between two times of one part of the motion the acceleration reported is the slope of the
      velocity: full in the first part, none at the peak, which is at full speed, full the other way
      in the last, none after it. */
  lemma AccelerationIsSlope(p: Plan, maxVel: real, maxAcc: real, t: real, u: real)
    requires Moves(p, maxVel, maxAcc) && 0.0 <= t <= u
    requires var c := CourseOf(p, maxVel, maxAcc);
             || u <= c.t1 || (c.t1 < t && u < T2(c)) || (c.t1 < t && T2(c) <= t && u < T3(c))
             || (c.t1 < t && T3(c) <= t)
    ensures var c := CourseOf(p, maxVel, maxAcc);
            var s, r := SampleAt(p, maxVel, maxAcc, t), SampleAt(p, maxVel, maxAcc, u);
            && r.vel - s.vel == s.acc * (u - t) && r.acc == s.acc
            && (c.t1 < t && u < T2(c) ==> s.vel == Directed(p, maxVel))
            && s.acc == Directed(p, if u <= c.t1 then maxAcc else if u < T2(c) || T3(c) <= t then 0.0 else -maxAcc)
  {
    hide RampPos, CruisePos, BrakePos, RampVel, BrakeVel, Accelerates, Decelerates, Distance, Times;
    RampSlope(p.oldVel, p.signM, maxAcc, t, u);
    BrakeSlope(p.signM, if p.shape then maxVel else p.velSt, maxAcc,
               if p.shape then t - p.tBrk - p.tAcc - p.tVel else t - p.tBrk - p.tAcc,
               if p.shape then u - p.tBrk - p.tAcc - p.tVel else u - p.tBrk - p.tAcc);
    SignTimes(p.signM, maxAcc);
    SignTimes(p.signM, maxVel);
  }

  /** A run of calls whose clock never goes back. */
  ghost predicate Runs(g: Gen, calls: seq<Call>)
    decreases |calls|
  {
    && g.maxVel > 0.0 && g.maxAcc > 0.0
    && (calls != [] ==> Possible(g, calls[0]) && Runs(Step(g, calls[0]), calls[1..]))
  }

  ghost predicate AllProper(g: Gen, calls: seq<Call>)
    requires Runs(g, calls)
    decreases |calls|
  {
    calls != [] ==> Proper(g, calls[0]) && AllProper(Step(g, calls[0]), calls[1..])
  }

  /** The state after the first n calls. */
  ghost function After(g: Gen, calls: seq<Call>, n: nat): Gen
    requires Runs(g, calls) && n <= |calls|
    decreases n
  {
    if n == 0 then g else After(Step(g, calls[0]), calls[1..], n - 1)
  }

  /** Every run keeps the state a sample of its plan, and so within the limits. */
  lemma {:induction false} RunKeepsLimits(g: Gen, calls: seq<Call>, n: nat)
    requires Fits(g) && Runs(g, calls) && n <= |calls|
    ensures var h := After(g, calls, n);
            && h.maxVel == g.maxVel && h.maxAcc == g.maxAcc
            && Fits(h) && -g.maxVel <= h.vel <= g.maxVel
            && (h.finished ==> h.pos == h.plan.posRef && h.vel == 0.0)
    decreases n
  {
    hide Fits, Possible, MakePlan, SampleAt, Undirected, Smooth, Proper;
    if n == 0 {
      FitsBounds(g);
    } else {
      StepKeeps(g, calls[0]);
      RunKeepsLimits(Step(g, calls[0]), calls[1..], n - 1);
    }
  }

  /** Over every run of updates from a fresh generator, with arbitrary targets, the speed never
      exceeds its limit, and a motion reported as finished is at its target, at rest. */
  lemma SpeedNeverExceeds(maxVel: real, maxAcc: real, initPos: real, start: real, calls: seq<Call>, n: nat)
    requires maxVel > 0.0 && maxAcc > 0.0 && n <= |calls|
    requires Runs(Fresh(maxVel, maxAcc, initPos, start), calls)
    ensures var h := After(Fresh(maxVel, maxAcc, initPos, start), calls, n);
            && -maxVel <= h.vel <= maxVel
            && (h.finished ==> h.pos == h.plan.posRef && h.vel == 0.0)
  {
    FreshFits(maxVel, maxAcc, initPos, start);
    hide Fits;
    RunKeepsLimits(Fresh(maxVel, maxAcc, initPos, start), calls, n);
  }

  lemma {:induction false} RunTells(g: Gen, calls: seq<Call>, n: nat)
    requires Fits(g) && Told(g) && Runs(g, calls) && n <= |calls|
    ensures Told(After(g, calls, n))
    decreases n
  {
    hide Fits, Possible, MakePlan, SampleAt, Undirected, Smooth, Proper, Told;
    if n > 0 {
      StepKeeps(g, calls[0]);
      StepTells(g, calls[0]);
      RunTells(Step(g, calls[0]), calls[1..], n - 1);
    }
  }

  /** Over every run of updates from a fresh generator, re-targets included: a motion is reported
      finished if and only if the time since its plan began has reached the end of the plan, and is past
      the end of the plan's acceleration. */
  lemma FinishedExactly(maxVel: real, maxAcc: real, initPos: real, start: real, calls: seq<Call>, n: nat)
    requires maxVel > 0.0 && maxAcc > 0.0 && n <= |calls|
    requires Runs(Fresh(maxVel, maxAcc, initPos, start), calls)
    ensures var h := After(Fresh(maxVel, maxAcc, initPos, start), calls, n);
            var t := h.lastTime - h.oldTime;
            h.finished <==> t >= EndOf(h.plan) && t > h.plan.tBrk + h.plan.tAcc
  {
    FreshFits(maxVel, maxAcc, initPos, start);
    assert Told(Fresh(maxVel, maxAcc, initPos, start));
    hide Fits;
    RunTells(Fresh(maxVel, maxAcc, initPos, start), calls, n);
  }

  lemma SmoothChain(g: Gen, h: Gen, k: Gen)
    requires Smooth(g, h) && Smooth(h, k) && g.maxVel == h.maxVel && g.maxAcc == h.maxAcc
    ensures Smooth(g, k)
  {
  }

  lemma SmoothAtOnce(g: Gen)
    ensures Smooth(g, g)
  {
  }

  /** Over every run whose targets are never the exact stopping point of the moving axis, each
      state lies within maxVel times the elapsed time of the first one, and its velocity within
      maxAcc times that time. */
  lemma {:induction false} RunIsSmooth(g: Gen, calls: seq<Call>, n: nat)
    requires Fits(g) && !Undirected(g.plan, g.maxVel) && Runs(g, calls) && AllProper(g, calls) && n <= |calls|
    ensures Smooth(g, After(g, calls, n))
    decreases n
  {
    hide Fits, Possible, MakePlan, SampleAt, Undirected, Proper, Smooth;
    if n == 0 {
      SmoothAtOnce(g);
    } else {
      var h := Step(g, calls[0]);
      StepKeeps(g, calls[0]);
      RunIsSmooth(h, calls[1..], n - 1);
      SmoothChain(g, h, After(g, calls, n));
    }
  }

  /** The first m calls lead to a state from which the others run on. */
  lemma {:induction false} RunsOn(g: Gen, calls: seq<Call>, m: nat, n: nat)
    requires Fits(g) && !Undirected(g.plan, g.maxVel) && Runs(g, calls) && AllProper(g, calls) && m <= n <= |calls|
    ensures var h := After(g, calls, m);
            && Fits(h) && !Undirected(h.plan, h.maxVel) && Runs(h, calls[m..]) && AllProper(h, calls[m..])
            && After(h, calls[m..], n - m) == After(g, calls, n)
    decreases m
  {
    hide Fits, Possible, MakePlan, SampleAt, Undirected, Proper, Smooth;
    if m == 0 {
      assert calls[0..] == calls;
    } else {
      StepKeeps(g, calls[0]);
      RunsOn(Step(g, calls[0]), calls[1..], m - 1, n - 1);
      assert calls[1..][m - 1..] == calls[m..];
    }
  }

  /** Any two samples of a run from a fresh generator are that close, re-targets included. */
  lemma SamplesAreSmooth(maxVel: real, maxAcc: real, initPos: real, start: real, calls: seq<Call>, m: nat, n: nat)
    requires maxVel > 0.0 && maxAcc > 0.0 && m <= n <= |calls|
    requires Runs(Fresh(maxVel, maxAcc, initPos, start), calls)
    requires AllProper(Fresh(maxVel, maxAcc, initPos, start), calls)
    ensures var g := Fresh(maxVel, maxAcc, initPos, start);
            var s, r := After(g, calls, m), After(g, calls, n);
            && Steady(r.pos - s.pos, r.lastTime - s.lastTime, maxVel, false)
            && Steady(r.vel - s.vel, r.lastTime - s.lastTime, maxAcc, false)
            && -maxVel <= r.vel <= maxVel
  {
    var g := Fresh(maxVel, maxAcc, initPos, start);
    FreshFits(maxVel, maxAcc, initPos, start);
    assert !Undirected(g.plan, g.maxVel);
    hide Fits, Fresh, Undirected, Steady;
    RunsOn(g, calls, m, n);
    RunKeepsLimits(g, calls, m);
    RunKeepsLimits(g, calls, n);
    RunIsSmooth(After(g, calls, m), calls[m..], n - m);
  }
}
