/** Trapezoidal and triangular motion, measured along its direction: the shape every plan of
    the generator reduces to, and what holds along it. Reals stand for doubles
    (canopen_fake_slaves/src/motion_generator.cpp). */
module MotionPlan {

  /** Way and speed after time t under constant acceleration k from speed w. */
  function Covered(w: real, k: real, t: real): real { w * t + 0.5 * k * t * t }

  function Reached(w: real, k: real, t: real): real { w + k * t }

  /** A motion over a distance, counted along its direction: from velocity w accelerate at a
      for t1 (the first tb of it braking, when w is negative), run at the peak velocity vs for
      tv, decelerate for td. d1 and d3 are the distances of the first and the last part. */
  datatype Course = Course(a: real, w: real, vs: real, tb: real, t1: real, tv: real, td: real, d1: real, d3: real)

  /** Acceleration a takes the speed from w to vs in time t over distance d, and to zero by tb at the latest. */
  predicate Accelerates(a: real, w: real, vs: real, tb: real, t: real, d: real) {
    && a > 0.0 && a * tb >= -w
    && a * t == vs - w
    && 2.0 * (a * d) == vs * vs - w * w
  }

  /** Deceleration a takes the speed from vs to zero in time t over distance d. */
  predicate Decelerates(a: real, vs: real, t: real, d: real) {
    && a > 0.0
    && a * t == vs
    && 2.0 * (a * d) == vs * vs
  }

  /** The equations between durations, distances and velocities, for the velocity limit v. */
  predicate Balanced(c: Course, v: real) {
    && v >= 0.0
    && -v <= c.w <= v && 0.0 <= c.vs <= v
    && 0.0 <= c.tb <= c.t1 && c.tv >= 0.0 && c.td >= 0.0
    && Accelerates(c.a, c.w, c.vs, c.tb, c.t1, c.d1)
    && Decelerates(c.a, c.vs, c.td, c.d3)
  }

  /** The times at which the deceleration starts and ends, and the whole distance. */
  function T2(c: Course): real { c.t1 + c.tv }

  function T3(c: Course): real { c.t1 + c.tv + c.td }

  function Distance(c: Course): real { c.d1 + c.vs * c.tv + c.d3 }

  // The moving parts, as formulas of the time.

  function Way1(c: Course, t: real): real { Covered(c.w, c.a, t) }

  function Way2(c: Course, t: real): real { c.d1 + c.vs * (t - c.t1) }

  function Way3(c: Course, t: real): real { c.d1 + c.vs * c.tv + Covered(c.vs, -c.a, t - T2(c)) }

  function Speed1(c: Course, t: real): real { Reached(c.w, c.a, t) }

  function Speed3(c: Course, t: real): real { Reached(c.vs, -c.a, t - T2(c)) }

  /** Way and speed at time t, with the case distinctions of the code. */
  function Way(c: Course, t: real): real {
    if t <= c.t1 then Way1(c, t)
    else if t < T2(c) then Way2(c, t)
    else if t < T3(c) then Way3(c, t)
    else Distance(c)
  }

  function Speed(c: Course, t: real): real {
    if t <= c.t1 then Speed1(c, t)
    else if t < T2(c) then c.vs
    else if t < T3(c) then Speed3(c, t)
    else 0.0
  }

  // ----- Arithmetic -----

  /** The distance of an acceleration from w to vs. */
  lemma AccelerationDistance(a: real, w: real, vs: real, tb: real, t: real, d: real)
    requires Accelerates(a, w, vs, tb, t, d)
    ensures d == Covered(w, a, t) && Reached(w, a, t) == vs
  {
  }

  /** The distance of a deceleration from vs to rest. */
  lemma DecelerationDistance(a: real, vs: real, t: real, d: real)
    requires Decelerates(a, vs, t, d)
    ensures d == Covered(vs, -a, t) && Reached(vs, -a, t) == 0.0
  {
  }

  /** The way covered under constant acceleration is the mean of the speeds times the time. */
  lemma MeanSpeed(w: real, k: real, t: real, u: real)
    ensures Covered(w, k, u) - Covered(w, k, t) == (u - t) * ((Reached(w, k, t) + Reached(w, k, u)) / 2.0)
  {
  }

  /** What holds of the way x made in time dt: at most v on average, and forward if so required. */
  predicate Steady(x: real, dt: real, v: real, forward: bool) {
    -(v * dt) <= x <= v * dt && (forward ==> x >= 0.0)
  }

  lemma MeanIsSteady(x: real, m: real, dt: real, v: real)
    requires dt >= 0.0 && -v <= m <= v && x == dt * m
    ensures Steady(x, dt, v, m >= 0.0)
  {
  }

  lemma Weaken(x: real, dt: real, v: real, forward: bool, needed: bool)
    requires Steady(x, dt, v, forward) && (needed ==> forward)
    ensures Steady(x, dt, v, needed)
  {
  }

  lemma Chain(x: real, y: real, dt: real, du: real, v: real, forward: bool)
    requires Steady(x, dt, v, forward) && Steady(y, du, v, forward)
    ensures Steady(x + y, dt + du, v, forward)
  {
  }

  /** The speed of a ramp from w to vs stays between -v and v, and is not negative from tb on. */
  lemma RampBounds(a: real, w: real, vs: real, tb: real, t1: real, d: real, v: real, t: real)
    requires Accelerates(a, w, vs, tb, t1, d)
    requires -v <= w && vs <= v && 0.0 <= t <= t1
    ensures -v <= Reached(w, a, t) <= v
    ensures t >= tb ==> Reached(w, a, t) >= 0.0
  {
  }

  lemma BrakeBounds(a: real, vs: real, td: real, d: real, t: real)
    requires Decelerates(a, vs, td, d) && 0.0 <= t <= td
    ensures 0.0 <= Reached(vs, -a, t) <= vs
  {
  }

  // ----- The parts fit together -----

  /** Each moving part starts where the one before ends, the last ends at the distance, and
      so do the speeds. */
  lemma PartsFit(c: Course, v: real)
    requires Balanced(c, v)
    ensures Way1(c, 0.0) == 0.0 && Speed1(c, 0.0) == c.w
    ensures Way1(c, c.t1) == Way2(c, c.t1) == c.d1 && Speed1(c, c.t1) == c.vs
    ensures Way2(c, T2(c)) == Way3(c, T2(c)) && Speed3(c, T2(c)) == c.vs
    ensures Way3(c, T3(c)) == Distance(c) && Speed3(c, T3(c)) == 0.0
  {
    AtStart(c);
    AtPeak(c, v);
    AtBrake(c);
    AtEnd(c, v);
  }

  lemma AtStart(c: Course)
    ensures Way1(c, 0.0) == 0.0 && Speed1(c, 0.0) == c.w
  {
  }

  lemma AtPeak(c: Course, v: real)
    requires Balanced(c, v)
    ensures Way1(c, c.t1) == Way2(c, c.t1) == c.d1 && Speed1(c, c.t1) == c.vs
  {
    hide Accelerates, Decelerates, Covered, Reached;
    AccelerationDistance(c.a, c.w, c.vs, c.tb, c.t1, c.d1);
  }

  lemma AtBrake(c: Course)
    ensures Way2(c, T2(c)) == Way3(c, T2(c)) && Speed3(c, T2(c)) == c.vs
  {
  }

  lemma AtEnd(c: Course, v: real)
    requires Balanced(c, v)
    ensures Way3(c, T3(c)) == Distance(c) && Speed3(c, T3(c)) == 0.0
  {
    hide Accelerates, Decelerates, Covered, Reached;
    DecelerationDistance(c.a, c.vs, c.td, c.d3);
    assert T3(c) - T2(c) == c.td;
  }

  /** On the closed interval of a part its formula is the way. */
  lemma PartOf(c: Course, v: real, t: real)
    requires Balanced(c, v) && 0.0 <= t
    ensures t <= c.t1 ==> Way(c, t) == Way1(c, t)
    ensures c.t1 <= t <= T2(c) ==> Way(c, t) == Way2(c, t)
    ensures T2(c) <= t <= T3(c) ==> Way(c, t) == Way3(c, t)
    ensures T3(c) <= t ==> Way(c, t) == Distance(c)
  {
    hide Accelerates, Decelerates, Way1, Way2, Way3, Distance;
    PartsFit(c, v);
  }

  // ----- Bounds along the course -----

  lemma SpeedBounds(c: Course, v: real, t: real)
    requires Balanced(c, v) && 0.0 <= t
    ensures -v <= Speed(c, t) <= v
    ensures t >= c.tb ==> Speed(c, t) >= 0.0
  {
    hide Accelerates, Decelerates, Reached;
    if t <= c.t1 {
      RampBounds(c.a, c.w, c.vs, c.tb, c.t1, c.d1, v, t);
    } else if T2(c) <= t < T3(c) {
      BrakeBounds(c.a, c.vs, c.td, c.d3, t - T2(c));
    }
  }

  lemma WithinPart1(c: Course, v: real, t: real, u: real)
    requires Balanced(c, v) && 0.0 <= t <= u <= c.t1
    ensures Steady(Way1(c, u) - Way1(c, t), u - t, v, t >= c.tb)
  {
    hide Accelerates, Decelerates, Reached, Covered, Steady;
    RampBounds(c.a, c.w, c.vs, c.tb, c.t1, c.d1, v, t);
    RampBounds(c.a, c.w, c.vs, c.tb, c.t1, c.d1, v, u);
    MeanSpeed(c.w, c.a, t, u);
    var m := (Speed1(c, t) + Speed1(c, u)) / 2.0;
    MeanIsSteady(Way1(c, u) - Way1(c, t), m, u - t, v);
    Weaken(Way1(c, u) - Way1(c, t), u - t, v, m >= 0.0, t >= c.tb);
  }

  lemma WithinPart2(c: Course, v: real, t: real, u: real)
    requires Balanced(c, v) && t <= u
    ensures Steady(Way2(c, u) - Way2(c, t), u - t, v, true)
  {
    hide Accelerates, Decelerates, Steady;
    MeanIsSteady((u - t) * c.vs, c.vs, u - t, v);
    assert Way2(c, u) - Way2(c, t) == (u - t) * c.vs;
  }

  lemma WithinPart3(c: Course, v: real, t: real, u: real)
    requires Balanced(c, v) && T2(c) <= t <= u <= T3(c)
    ensures Steady(Way3(c, u) - Way3(c, t), u - t, v, true)
  {
    var p, q := t - T2(c), u - T2(c);
    hide Accelerates, Decelerates, Reached, Covered, Steady;
    BrakeBounds(c.a, c.vs, c.td, c.d3, p);
    BrakeBounds(c.a, c.vs, c.td, c.d3, q);
    MeanSpeed(c.vs, -c.a, p, q);
    MeanIsSteady(Way3(c, u) - Way3(c, t), (Speed3(c, t) + Speed3(c, u)) / 2.0, u - t, v);
  }

  lemma Rest(dt: real, v: real)
    requires dt >= 0.0 && v >= 0.0
    ensures Steady(0.0, dt, v, true)
  {
  }

  lemma From3(c: Course, v: real, t: real, u: real)
    requires Balanced(c, v) && T2(c) <= t <= u
    ensures Steady(Way(c, u) - Way(c, t), u - t, v, true)
  {
    hide Accelerates, Decelerates, Way, Way3, Distance, Steady;
    PartOf(c, v, t);
    PartOf(c, v, u);
    PartOf(c, v, T3(c));
    if t < T3(c) {
      if u <= T3(c) {
        WithinPart3(c, v, t, u);
      } else {
        WithinPart3(c, v, t, T3(c));
        Rest(u - T3(c), v);
        Chain(Way(c, T3(c)) - Way(c, t), 0.0, T3(c) - t, u - T3(c), v, true);
      }
    } else {
      Rest(u - t, v);
    }
  }

  lemma From2(c: Course, v: real, t: real, u: real)
    requires Balanced(c, v) && c.t1 <= t <= u
    ensures Steady(Way(c, u) - Way(c, t), u - t, v, true)
  {
    hide Accelerates, Decelerates, Way, Way2, Steady;
    if t < T2(c) {
      PartOf(c, v, t);
      if u <= T2(c) {
        PartOf(c, v, u);
        WithinPart2(c, v, t, u);
      } else {
        PartOf(c, v, T2(c));
        WithinPart2(c, v, t, T2(c));
        From3(c, v, T2(c), u);
        Chain(Way(c, T2(c)) - Way(c, t), Way(c, u) - Way(c, T2(c)), T2(c) - t, u - T2(c), v, true);
      }
    } else {
      From3(c, v, t, u);
    }
  }

  /** Between any two times the way changes by at most v times the time between them, and
      once the braking part is over it never decreases. */
  lemma WayIsSteady(c: Course, v: real, t: real, u: real)
    requires Balanced(c, v) && 0.0 <= t <= u
    ensures Steady(Way(c, u) - Way(c, t), u - t, v, t >= c.tb)
  {
    hide Accelerates, Decelerates, Way, Way1, Steady;
    if t < c.t1 {
      PartOf(c, v, t);
      if u <= c.t1 {
        PartOf(c, v, u);
        WithinPart1(c, v, t, u);
      } else {
        PartOf(c, v, c.t1);
        WithinPart1(c, v, t, c.t1);
        From2(c, v, c.t1, u);
        Weaken(Way(c, u) - Way(c, c.t1), u - c.t1, v, true, t >= c.tb);
        Chain(Way(c, c.t1) - Way(c, t), Way(c, u) - Way(c, c.t1), c.t1 - t, u - c.t1, v, t >= c.tb);
      }
    } else {
      From2(c, v, t, u);
      Weaken(Way(c, u) - Way(c, t), u - t, v, true, t >= c.tb);
    }
  }

  // The speed changes at most at the rate of the acceleration.

  lemma ReachedIsSteady(w: real, k: real, t: real, u: real, dt: real, a: real)
    requires a > 0.0 && (k == a || k == -a) && 0.0 <= u - t <= dt
    ensures Steady(Reached(w, k, u) - Reached(w, k, t), dt, a, false)
  {
  }

  lemma SpeedWithin1(c: Course, v: real, t: real, u: real)
    requires Balanced(c, v) && 0.0 <= t <= u <= c.t1
    ensures Steady(Speed(c, u) - Speed(c, t), u - t, c.a, false)
  {
    hide Accelerates, Decelerates, Reached, Steady;
    AccelerationPositive(c.a, c.w, c.vs, c.tb, c.t1, c.d1);
    ReachedIsSteady(c.w, c.a, t, u, u - t, c.a);
  }

  lemma SpeedFrom3(c: Course, v: real, t: real, u: real)
    requires Balanced(c, v) && T2(c) <= t <= u
    ensures Steady(Speed3(c, if u < T3(c) then u else T3(c)) - Speed3(c, if t < T3(c) then t else T3(c)),
                   u - t, c.a, false)
  {
    hide Accelerates, Decelerates, Reached, Steady;
    AccelerationPositive(c.a, c.w, c.vs, c.tb, c.t1, c.d1);
    var t', u' := if t < T3(c) then t else T3(c), if u < T3(c) then u else T3(c);
    ReachedIsSteady(c.vs, -c.a, t' - T2(c), u' - T2(c), u - t, c.a);
  }

  /** The formula that gives the speed from t1 on. */
  lemma SpeedLater(c: Course, v: real, t: real)
    requires Balanced(c, v) && c.t1 <= t
    ensures t <= T2(c) ==> Speed(c, t) == c.vs
    ensures T2(c) <= t ==> Speed(c, t) == Speed3(c, if t < T3(c) then t else T3(c))
  {
    hide Accelerates, Decelerates, Way1, Way2, Way3, Distance, Reached, Covered;
    PartsFit(c, v);
  }

  lemma SpeedIsSteady(c: Course, v: real, t: real, u: real)
    requires Balanced(c, v) && 0.0 <= t <= u
    ensures Steady(Speed(c, u) - Speed(c, t), u - t, c.a, false)
  {
    hide Accelerates, Decelerates, Speed, Speed3, Steady;
    if u <= c.t1 {
      SpeedWithin1(c, v, t, u);
    } else if t < c.t1 {
      SpeedWithin1(c, v, t, c.t1);
      SpeedFrom2(c, v, c.t1, u);
      Chain(Speed(c, c.t1) - Speed(c, t), Speed(c, u) - Speed(c, c.t1), c.t1 - t, u - c.t1, c.a, false);
    } else {
      SpeedFrom2(c, v, t, u);
    }
  }

  lemma AccelerationPositive(a: real, w: real, vs: real, tb: real, t: real, d: real)
    requires Accelerates(a, w, vs, tb, t, d)
    ensures a > 0.0
  {
  }

  lemma SpeedFrom2(c: Course, v: real, t: real, u: real)
    requires Balanced(c, v) && c.t1 <= t <= u
    ensures Steady(Speed(c, u) - Speed(c, t), u - t, c.a, false)
  {
    hide Accelerates, Decelerates, Speed, Speed3, Steady;
    AccelerationPositive(c.a, c.w, c.vs, c.tb, c.t1, c.d1);
    SpeedLater(c, v, t);
    SpeedLater(c, v, u);
    SpeedLater(c, v, T2(c));
    if t >= T2(c) {
      SpeedFrom3(c, v, t, u);
    } else if u <= T2(c) {
      Rest(u - t, c.a);
      Weaken(0.0, u - t, c.a, true, false);
    } else {
      Rest(T2(c) - t, c.a);
      Weaken(0.0, T2(c) - t, c.a, true, false);
      SpeedFrom3(c, v, T2(c), u);
      Chain(0.0, Speed(c, u) - Speed(c, T2(c)), T2(c) - t, u - T2(c), c.a, false);
    }
  }

  /** After the braking part the way never passes the distance, and the motion ends at rest there. */
  lemma NeverOvershoots(c: Course, v: real, t: real)
    requires Balanced(c, v) && c.tb <= t
    ensures Way(c, t) <= Distance(c)
    ensures t >= T3(c) ==> Way(c, t) == Distance(c) && Speed(c, t) == 0.0
  {
    hide Accelerates, Decelerates, Way1, Way2, Way3, Distance, Reached, Covered;
    PartsFit(c, v);
    PartOf(c, v, t);
    if t < T3(c) {
      WayIsSteady(c, v, t, T3(c));
      PartOf(c, v, T3(c));
    }
  }

  /** What is left to go when the deceleration still takes time `left`. */
  function StoppingWay(a: real, left: real): real { 0.5 * a * left * left }

  /** The deceleration, counted back from the target. */
  lemma DecelerationFromEnd(c: Course, v: real, t: real)
    requires Balanced(c, v) && T2(c) <= t <= T3(c)
    ensures Way(c, t) == Distance(c) - StoppingWay(c.a, T3(c) - t)
  {
    hide Accelerates, Decelerates, Covered, Reached, Way, StoppingWay;
    PartOf(c, v, t);
    DecelerationDistance(c.a, c.vs, c.td, c.d3);
    BackFromEnd(c.a, c.vs, c.td, c.d3, t - T2(c), T3(c) - t);
  }

  lemma BackFromEnd(a: real, vs: real, td: real, d: real, u: real, left: real)
    requires Decelerates(a, vs, td, d) && left == td - u
    ensures Covered(vs, -a, u) == Covered(vs, -a, td) - StoppingWay(a, left)
  {
  }
}
