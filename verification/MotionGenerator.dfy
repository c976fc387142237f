/** The motion generator of the simulated drive: it plans when the target changes, in
    mid-motion too, and samples the plan otherwise
    (canopen_fake_slaves/src/motion_generator.cpp). Clock readings are arguments, and the
    square root is passed in. */
module MotionGenerator {
  import opened Reals

  function Sign(x: real): real { if x < 0.0 then -1.0 else if x > 0.0 then 1.0 else 0.0 }

  // The products and quotients of the planner.

  function TimeFor(speed: real, maxAcc: real): real
    requires maxAcc != 0.0
  {
    speed / maxAcc
  }

  /** The distance of a time at half a speed. */
  function HalfWay(time: real, speed: real): real { time * speed / 2.0 }

  /** What a change of the target fixes. */
  datatype Plan = Plan(oldPos: real, oldVel: real, posRef: real, signM: real, shape: bool,
                       tBrk: real, dBrk: real, tAcc: real, dAcc: real, dTot: real,
                       tVel: real, dVel: real, tDec: real, dDec: real, velSt: real)

  function Stop(maxAcc: real, pos: real, vel: real): real
    requires maxAcc != 0.0
  {
    pos + Times(Sign(vel), HalfWay(TimeFor(Abs(vel), maxAcc), Abs(vel)))
  }

  /** The radicand of the peak velocity of a triangular plan. */
  function Radicand(maxAcc: real, pos: real, vel: real, posRef: real): real
    requires maxAcc != 0.0
  {
    var dBrk := HalfWay(TimeFor(Abs(vel), maxAcc), Abs(vel));
    var signM := Sign(posRef - Stop(maxAcc, pos, vel));
    if signM != Sign(vel) then Times(maxAcc, Abs(posRef - pos + Times(signM, dBrk)))
    else 0.5 * Times(vel, vel) + Times(maxAcc, Abs(posRef - pos))
  }

  predicate IsRoot(root: real, x: real) {
    root >= 0.0 && root * root == x
  }

  /** Where a plan begins: its direction, the braking and the acceleration. */
  datatype Ramp = Ramp(signM: real, tBrk: real, dBrk: real, tAcc: real, dAcc: real)

  function TrapezoidRamp(maxVel: real, maxAcc: real, pos: real, vel: real, posRef: real): Ramp
    requires maxAcc != 0.0
  {
    var tBrk := TimeFor(Abs(vel), maxAcc);
    var dBrk := HalfWay(tBrk, Abs(vel));
    var signM := Sign(posRef - (pos + Times(Sign(vel), dBrk)));
    if signM != Sign(vel) then
      var tAcc := TimeFor(maxVel, maxAcc);
      Ramp(signM, tBrk, dBrk, tAcc, HalfWay(tAcc, maxVel))
    else
      var tAcc := TimeFor(maxVel - Abs(vel), maxAcc);
      Ramp(signM, 0.0, 0.0, tAcc, HalfWay(tAcc, maxVel + Abs(vel)))
  }

  /** The rest of a plan: the total distance, the part at the peak velocity, the deceleration. */
  datatype Finish = Finish(dTot: real, tVel: real, dVel: real, tDec: real, dDec: real)

  function TrapezoidFinish(maxVel: real, maxAcc: real, pos: real, posRef: real, r: Ramp): Finish
    requires maxVel != 0.0 && maxAcc != 0.0
  {
    var dTot := Abs(posRef - pos + Times(r.signM, r.dBrk));
    var tDec := TimeFor(maxVel, maxAcc);
    var dDec := HalfWay(tDec, maxVel);
    var dVel := dTot - (r.dAcc + dDec);
    Finish(dTot, TimeFor(dVel, maxVel), dVel, tDec, dDec)
  }

  /** The plan for a trapezoid, kept when there is time left at the peak velocity. */
  function Trapezoid(maxVel: real, maxAcc: real, pos: real, vel: real, posRef: real, velSt: real): Plan
    requires maxVel != 0.0 && maxAcc != 0.0
  {
    var r := TrapezoidRamp(maxVel, maxAcc, pos, vel, posRef);
    var q := TrapezoidFinish(maxVel, maxAcc, pos, posRef, r);
    Plan(pos, vel, posRef, r.signM, q.tVel > 0.0, r.tBrk, r.dBrk, r.tAcc, r.dAcc, q.dTot,
         q.tVel, q.dVel, q.tDec, q.dDec, velSt)
  }

  function TriangleRamp(p: Plan, maxAcc: real, root: real): Ramp
    requires maxAcc != 0.0
  {
    if p.signM != Sign(p.oldVel) then
      var tAcc := TimeFor(root, maxAcc);
      Ramp(p.signM, p.tBrk, p.dBrk, tAcc, HalfWay(tAcc, root))
    else
      var tAcc := TimeFor(root - Abs(p.oldVel), maxAcc);
      Ramp(p.signM, 0.0, 0.0, tAcc, HalfWay(tAcc, root + Abs(p.oldVel)))
  }

  /** Otherwise periods and distances are computed again for a lower peak velocity. */
  function Triangle(p: Plan, maxAcc: real, root: real): Plan
    requires maxAcc != 0.0
  {
    var r := TriangleRamp(p, maxAcc, root);
    var dTot := if p.signM != Sign(p.oldVel) then p.dTot else Abs(p.posRef - p.oldPos);
    var tDec := TimeFor(root, maxAcc);
    Plan(p.oldPos, p.oldVel, p.posRef, p.signM, p.shape, r.tBrk, r.dBrk, r.tAcc, r.dAcc, dTot,
         p.tVel, p.dVel, tDec, HalfWay(tDec, root), root)
  }

  function MakePlan(maxVel: real, maxAcc: real, pos: real, vel: real, posRef: real, root: real, velSt: real): Plan
    requires maxVel != 0.0 && maxAcc != 0.0
  {
    var p := Trapezoid(maxVel, maxAcc, pos, vel, posRef, velSt);
    if p.shape then p else Triangle(p, maxAcc, root)
  }

  // The formulas of the parts of a plan, u after the part began.

  function RampPos(p: real, v: real, s: real, a: real, u: real): real { p + v * u + s * 0.5 * a * u * u }

  function RampVel(v: real, s: real, a: real, u: real): real { v + s * a * u }

  function CruisePos(p: real, s: real, d: real, v: real, u: real): real { p + s * (d + v * u) }

  function BrakePos(p: real, s: real, d: real, v: real, a: real, u: real): real {
    p + s * (d + v * u - 0.5 * a * u * u)
  }

  function BrakeVel(s: real, v: real, a: real, u: real): real { s * (v - a * u) }

  datatype Sample = Sample(pos: real, vel: real, acc: real, done: bool)

  /** calculateTrapezoidalProfile at time t after the plan was made. */
  function SampleAt(p: Plan, maxVel: real, maxAcc: real, t: real): Sample {
    var u := t - p.tBrk - p.tAcc;
    if t <= p.tBrk + p.tAcc then
      Sample(RampPos(p.oldPos, p.oldVel, p.signM, maxAcc, t), RampVel(p.oldVel, p.signM, maxAcc, t),
             Times(p.signM, maxAcc), false)
    else if p.shape then
      if t < p.tBrk + p.tAcc + p.tVel then
        Sample(CruisePos(p.oldPos, p.signM, -p.dBrk + p.dAcc, maxVel, u), Times(p.signM, maxVel), 0.0, false)
      else if t < p.tBrk + p.tAcc + p.tVel + p.tDec then
        Sample(BrakePos(p.oldPos, p.signM, -p.dBrk + p.dAcc + p.dVel, maxVel, maxAcc, u - p.tVel),
               BrakeVel(p.signM, maxVel, maxAcc, u - p.tVel), -Times(p.signM, maxAcc), false)
      else
        Sample(p.posRef, 0.0, 0.0, true)
    else
      if t < p.tBrk + p.tAcc + p.tDec then
        Sample(BrakePos(p.oldPos, p.signM, -p.dBrk + p.dAcc, p.velSt, maxAcc, u),
               BrakeVel(p.signM, p.velSt, maxAcc, u), -Times(p.signM, maxAcc), false)
      else
        Sample(p.posRef, 0.0, 0.0, true)
  }

  /** The whole state of a generator. */
  datatype Gen = Gen(maxVel: real, maxAcc: real, plan: Plan, pos: real, vel: real, acc: real,
                     oldTime: real, lastTime: real, finished: bool)

  /** One call of update. */
  function Next(g: Gen, posRef: real, now: real, root: real): Gen
    requires g.maxVel != 0.0 && g.maxAcc != 0.0
  {
    var changed := g.plan.posRef != posRef;
    var plan := if changed then MakePlan(g.maxVel, g.maxAcc, g.pos, g.vel, posRef, root, g.plan.velSt) else g.plan;
    var oldTime := if changed then g.lastTime else g.oldTime;
    var s := SampleAt(plan, g.maxVel, g.maxAcc, now - oldTime);
    Gen(g.maxVel, g.maxAcc, plan, s.pos, s.vel, s.acc, oldTime, now, s.done || (g.finished && !changed))
  }

  /** reset: back to a position, at rest. Clock readings, the sign, the shape and the finished
      flag stay. */
  function ResetTo(g: Gen, initPos: real): Gen {
    Gen(g.maxVel, g.maxAcc,
        Plan(initPos, 0.0, initPos, g.plan.signM, g.plan.shape, 0.0, 0.0, 0.0, 0.0, 0.0, 0.0, 0.0, 0.0, 0.0, 0.0),
        initPos, 0.0, 0.0, g.oldTime, g.lastTime, g.finished)
  }

  class MotionGenerator {
    var maxVel: real
    var maxAcc: real
    var initPos: real
    var pos: real
    var vel: real
    var acc: real
    var oldPos: real
    var oldPosRef: real
    var oldVel: real
    var dBrk: real
    var dAcc: real
    var dVel: real
    var dDec: real
    var dTot: real
    var tBrk: real
    var tAcc: real
    var tVel: real
    var tDec: real
    var velSt: real
    var oldTime: real
    var lastTime: real
    var signM: real
    var shape: bool
    var isFinished: bool

    function CurrentPlan(): Plan
      reads this
    {
      Plan(oldPos, oldVel, oldPosRef, signM, shape, tBrk, dBrk, tAcc, dAcc, dTot, tVel, dVel, tDec, dDec, velSt)
    }

    function Value(): Gen
      reads this
    {
      Gen(maxVel, maxAcc, CurrentPlan(), pos, vel, acc, oldTime, lastTime, isFinished)
    }

    constructor (aMaxVel: real, aMaxAcc: real, initPos: real, now: real)
      ensures Value() == Fresh(aMaxVel, aMaxAcc, initPos, now) && this.initPos == initPos
    {
      maxVel, maxAcc, this.initPos := aMaxVel, aMaxAcc, initPos;
      oldTime, lastTime := now, now;
      pos, oldPos, oldPosRef := initPos, initPos, initPos;
      vel, acc, oldVel := 0.0, 0.0, 0.0;
      dBrk, dAcc, dVel, dDec, dTot := 0.0, 0.0, 0.0, 0.0, 0.0;
      tBrk, tAcc, tVel, tDec := 0.0, 0.0, 0.0, 0.0;
      velSt := 0.0;
      signM, shape, isFinished := 1.0, true, false;
    }

    method Reset()
      modifies this
      ensures Value() == ResetTo(old(Value()), initPos) && initPos == old(initPos)
      ensures pos == oldPos == oldPosRef == initPos && vel == acc == oldVel == 0.0
      ensures dBrk == dAcc == dVel == dDec == dTot == tBrk == tAcc == tVel == tDec == velSt == 0.0
      ensures unchanged(`maxVel, `maxAcc, `signM, `shape, `oldTime, `lastTime, `isFinished)
    {
      ResetState();
      ResetParts();
    }

    method ResetState()
      modifies this`pos, this`oldPos, this`oldPosRef, this`vel, this`acc, this`oldVel
      ensures pos == oldPos == oldPosRef == initPos && vel == acc == oldVel == 0.0
    {
      pos := initPos;
      oldPos := initPos;
      oldPosRef := initPos;
      vel := 0.0;
      acc := 0.0;
      oldVel := 0.0;
    }

    method ResetParts()
      modifies this`dBrk, this`dAcc, this`dVel, this`dDec, this`dTot
      modifies this`tBrk, this`tAcc, this`tVel, this`tDec, this`velSt
      ensures dBrk == dAcc == dVel == dDec == dTot == tBrk == tAcc == tVel == tDec == velSt == 0.0
    {
      dBrk := 0.0;
      dAcc := 0.0;
      dVel := 0.0;
      dDec := 0.0;
      dTot := 0.0;
      tBrk := 0.0;
      tAcc := 0.0;
      tVel := 0.0;
      tDec := 0.0;
      velSt := 0.0;
    }

    /** The part of update that runs when the reference changes. */
    method Replan(posRef: real, root: real)
      requires maxVel != 0.0 && maxAcc != 0.0
      modifies this
      ensures unchanged(`maxVel, `maxAcc, `initPos, `pos, `vel, `acc, `lastTime)
      ensures CurrentPlan() == MakePlan(maxVel, maxAcc, pos, vel, posRef, root, old(velSt)) && oldPosRef == posRef
      ensures oldTime == lastTime && !isFinished
    {
      hide TimeFor, HalfWay, Times, Abs, Sign, Trapezoid, Triangle;
      ReplanTrapezoid(posRef);
      if !shape {
        ReplanTriangle(root);
      }
    }

    method ReplanTrapezoid(posRef: real)
      requires maxVel != 0.0 && maxAcc != 0.0
      modifies this
      ensures unchanged(`maxVel, `maxAcc, `initPos, `pos, `vel, `acc, `velSt, `lastTime)
      ensures CurrentPlan() == Trapezoid(maxVel, maxAcc, pos, vel, posRef, velSt) && oldPosRef == posRef
      ensures oldTime == lastTime && !isFinished
    {
      hide TrapezoidRamp, TrapezoidFinish;
      ShiftState(posRef);
      PlanBraking(posRef);
      PlanCruise(posRef);
    }

    method ShiftState(posRef: real)
      modifies this`isFinished, this`oldPosRef, this`oldPos, this`oldVel, this`oldTime
      ensures oldPosRef == posRef && oldPos == pos && oldVel == vel && oldTime == lastTime && !isFinished
    {
      isFinished := false;
      oldPosRef := posRef;
      oldPos := pos;
      oldVel := vel;
      oldTime := lastTime;
    }

    method PlanBraking(posRef: real)
      requires maxAcc != 0.0
      modifies this`tBrk, this`dBrk, this`signM, this`tAcc, this`dAcc
      ensures Ramp(signM, tBrk, dBrk, tAcc, dAcc) == TrapezoidRamp(maxVel, maxAcc, oldPos, oldVel, posRef)
    {
      hide TimeFor, HalfWay, Times, Abs, Sign;
      tBrk := TimeFor(Abs(oldVel), maxAcc);
      dBrk := HalfWay(tBrk, Abs(oldVel));
      signM := Sign(posRef - (oldPos + Times(Sign(oldVel), dBrk)));
      if signM != Sign(oldVel) {
        tAcc := TimeFor(maxVel, maxAcc);
        dAcc := HalfWay(tAcc, maxVel);
      } else {
        tBrk := 0.0;
        dBrk := 0.0;
        tAcc := TimeFor(maxVel - Abs(oldVel), maxAcc);
        dAcc := HalfWay(tAcc, maxVel + Abs(oldVel));
      }
    }

    method PlanCruise(posRef: real)
      requires maxVel != 0.0 && maxAcc != 0.0
      modifies this`dTot, this`tDec, this`dDec, this`dVel, this`tVel, this`shape
      ensures Finish(dTot, tVel, dVel, tDec, dDec) ==
              TrapezoidFinish(maxVel, maxAcc, oldPos, posRef, Ramp(signM, tBrk, dBrk, tAcc, dAcc))
      ensures shape == (tVel > 0.0)
    {
      hide TimeFor, HalfWay, Times, Abs, Sign;
      dTot := Abs(posRef - oldPos + Times(signM, dBrk));
      tDec := TimeFor(maxVel, maxAcc);
      dDec := HalfWay(tDec, maxVel);
      dVel := dTot - (dAcc + dDec);
      tVel := TimeFor(dVel, maxVel);
      shape := tVel > 0.0;
    }

    method ReplanTriangle(root: real)
      requires maxAcc != 0.0
      modifies this`velSt, this`tAcc, this`dAcc, this`tBrk, this`dBrk, this`dTot, this`tDec, this`dDec
      ensures CurrentPlan() == Triangle(old(CurrentPlan()), maxAcc, root)
    {
      hide TimeFor, HalfWay, TriangleRamp, Abs, Sign;
      PlanPeak(root);
      tDec := TimeFor(velSt, maxAcc);
      dDec := HalfWay(tDec, velSt);
    }

    method PlanPeak(root: real)
      requires maxAcc != 0.0
      modifies this`velSt, this`tAcc, this`dAcc, this`tBrk, this`dBrk, this`dTot
      ensures Ramp(signM, tBrk, dBrk, tAcc, dAcc) == TriangleRamp(old(CurrentPlan()), maxAcc, root)
      ensures dTot == (if signM != Sign(oldVel) then old(dTot) else Abs(oldPosRef - oldPos)) && velSt == root
    {
      hide TimeFor, HalfWay, Abs, Sign;
      if signM != Sign(oldVel) {
        velSt := root;
        tAcc := TimeFor(velSt, maxAcc);
        dAcc := HalfWay(tAcc, velSt);
      } else {
        tBrk := 0.0;
        dBrk := 0.0;
        dTot := Abs(oldPosRef - oldPos);
        velSt := root;
        tAcc := TimeFor(velSt - Abs(oldVel), maxAcc);
        dAcc := HalfWay(tAcc, velSt + Abs(oldVel));
      }
    }

    /** calculateTrapezoidalProfile for the elapsed time t. */
    method CalculateTrapezoidalProfile(posRef: real, t: real)
      requires posRef == oldPosRef
      modifies this`pos, this`vel, this`acc, this`isFinished
      ensures Sample(pos, vel, acc, isFinished) ==
              var s := SampleAt(old(CurrentPlan()), maxVel, maxAcc, t);
              s.(done := s.done || old(isFinished))
    {
      hide RampPos, RampVel, CruisePos, BrakePos, BrakeVel, Times;
      var u := t - tBrk - tAcc;
      if shape {
        if t <= tBrk + tAcc {
          pos := RampPos(oldPos, oldVel, signM, maxAcc, t);
          vel := RampVel(oldVel, signM, maxAcc, t);
          acc := Times(signM, maxAcc);
        } else if t > tBrk + tAcc && t < tBrk + tAcc + tVel {
          pos := CruisePos(oldPos, signM, -dBrk + dAcc, maxVel, u);
          vel := Times(signM, maxVel);
          acc := 0.0;
        } else if t >= tBrk + tAcc + tVel && t < tBrk + tAcc + tVel + tDec {
          pos := BrakePos(oldPos, signM, -dBrk + dAcc + dVel, maxVel, maxAcc, u - tVel);
          vel := BrakeVel(signM, maxVel, maxAcc, u - tVel);
          acc := -Times(signM, maxAcc);
        } else {
          pos := posRef;
          vel := 0.0;
          acc := 0.0;
          isFinished := true;
        }
      } else {
        if t <= tBrk + tAcc {
          pos := RampPos(oldPos, oldVel, signM, maxAcc, t);
          vel := RampVel(oldVel, signM, maxAcc, t);
          acc := Times(signM, maxAcc);
        } else if t > tBrk + tAcc && t < tBrk + tAcc + tDec {
          pos := BrakePos(oldPos, signM, -dBrk + dAcc, velSt, maxAcc, u);
          vel := BrakeVel(signM, velSt, maxAcc, u);
          acc := -Times(signM, maxAcc);
        } else {
          pos := posRef;
          vel := 0.0;
          acc := 0.0;
          isFinished := true;
        }
      }
    }

    method Update(posRef: real, now: real, root: real) returns (position: real)
      requires maxVel != 0.0 && maxAcc != 0.0
      requires posRef != oldPosRef ==> IsRoot(root, Radicand(maxAcc, pos, vel, posRef))
      modifies this
      ensures Value() == Next(old(Value()), posRef, now, root) && position == pos
    {
      hide MakePlan, SampleAt, Radicand, IsRoot;
      if oldPosRef != posRef {
        Replan(posRef, root);
      }
      CalculateTrapezoidalProfile(posRef, now - oldTime);
      lastTime := now;
      position := pos;
    }
  }

  /** A generator after construction. */
  function Fresh(maxVel: real, maxAcc: real, initPos: real, now: real): Gen {
    Gen(maxVel, maxAcc, Plan(initPos, 0.0, initPos, 1.0, true, 0.0, 0.0, 0.0, 0.0, 0.0, 0.0, 0.0, 0.0, 0.0, 0.0),
        initPos, 0.0, 0.0, now, now, false)
  }
}
