/** Targets in the units of the application: scaling on the way to the motor, saturation in
    the mode handler, and the way back
    (canopen_402_driver/include/canopen_402_driver/node_interfaces/node_canopen_402_driver_impl.hpp,
    canopen_402_driver/include/canopen_402_driver/node_interfaces/node_canopen_402_driver.hpp,
    canopen_402_driver/include/canopen_402_driver/mode_target_helper.hpp). */
module TargetScaling {
  import opened Reals
  import opened Wrappers
  import opened Modes
  import opened MotorSteps

  datatype Scales = Scales(posToDev: real, posFromDev: real, velToDev: real, velFromDev: real,
                           offsetToDev: real, offsetFromDev: real)

  datatype Channel = Channel(motor: Motor402?, scales: Scales)

  const POSITION_MODES := {1, 7, 8}
  const VELOCITY_MODES := {2, 3, 9}

  function Linear(x: real, scale: real, offset: real): real { x * scale + offset }

  /** The same for doubles, rounding apart. */
  function Affine(x: Double, scale: real, offset: real): Double {
    match x
    case NaN => NaN
    case Finite(r) => Finite(Linear(r, scale, offset))
    case PositiveInfinity => if scale > 0.0 then PositiveInfinity else if scale < 0.0 then NegativeInfinity else NaN
    case NegativeInfinity => if scale > 0.0 then NegativeInfinity else if scale < 0.0 then PositiveInfinity else NaN
  }

  function Scaled(mode: int, s: Scales, target: Double): Double {
    if mode in POSITION_MODES then Affine(target, s.posToDev, s.offsetToDev)
    else if mode in VELOCITY_MODES then Affine(target, s.velToDev, 0.0)
    else target
  }

  /** Targets of the position modes 1, 7 and 8 are scaled and moved by the offset, those of the
      velocity modes 2, 3 and 9 scaled, and those of the others, torques among them, passed on. */
  lemma ScaledByMode(mode: int, s: Scales, x: real)
    ensures Scaled(mode, s, NaN) == NaN
    ensures Scaled(mode, s, Finite(x)) ==
            if mode == 1 || mode == 7 || mode == 8 then Finite(x * s.posToDev + s.offsetToDev)
            else if mode == 2 || mode == 3 || mode == 9 then Finite(x * s.velToDev) else Finite(x)
  {
  }

  class NodeDriver {
    var activated: bool
    var channels: seq<Channel>

    constructor (channels: seq<Channel>)
      ensures this.channels == channels && !activated
    {
      this.channels, activated := channels, false;
    }

    function MotorOf(channel: nat): Motor402?
      reads this
    {
      if activated && channel < |channels| then channels[channel].motor else null
    }

    method SetTarget(target: Double, channel: nat) returns (ok: bool)
      requires MotorOf(channel) != null ==> WellFormed(MotorOf(channel).Value())
      modifies if MotorOf(channel) == null then {} else {MotorOf(channel)}
      ensures old(MotorOf(channel)) == null ==> !ok
      ensures var m := old(MotorOf(channel));
              m != null ==>
                var v := old(m.Value());
                var mode := if v.selected.Some? then v.selected.value else NO_MODE;
                var scaled := Scaled(mode, channels[channel].scales, target);
                && m.Value() == AfterTarget(v, scaled)
                && ok == AcceptedTarget(v, scaled).Some?
    {
      if !activated || channel >= |channels| || channels[channel].motor == null {
        return false;
      }
      var motor := channels[channel].motor;
      var mode := motor.GetMode();
      var scales := channels[channel].scales;
      var scaled: Double;
      if mode in POSITION_MODES {
        scaled := Affine(target, scales.posToDev, scales.offsetToDev);
      } else if mode in VELOCITY_MODES {
        scaled := Affine(target, scales.velToDev, 0.0);
      } else {
        scaled := target;
      }
      ok := motor.SetTarget(scaled);
    }
  }

  // ----- Saturation -----

  lemma TruncateFacts(x: real)
    ensures x >= 0.0 ==> 0 <= Truncate(x) && Truncate(x) as real <= x < Truncate(x) as real + 1.0
    ensures x <= 0.0 ==> Truncate(x) <= 0 && Truncate(x) as real - 1.0 < x <= Truncate(x) as real
  {
  }

  /** The target is the command truncated toward zero, cut off at the limits of its type. */
  lemma CastSaturates(lo: int, hi: int, x: real)
    requires lo < 0 < hi
    ensures CastTarget(lo, hi, Finite(x)) ==
            Some(if Truncate(x) < lo then lo else if hi < Truncate(x) then hi else Truncate(x))
  {
  }

  /** The order of doubles, infinities included. */
  predicate AtMost(x: Double, y: Double) {
    || x.NegativeInfinity?
    || y.PositiveInfinity?
    || (x.Finite? && y.Finite? && x.x <= y.x)
  }

  lemma CastIsMonotone(lo: int, hi: int, x: real, y: real)
    requires lo < 0 < hi && x <= y
    ensures var t, u := CastTarget(lo, hi, Finite(x)), CastTarget(lo, hi, Finite(y));
            t.Some? && u.Some? && lo <= t.value <= u.value <= hi
  {
  }

  /** For a positive scale a larger request never gives a smaller target. */
  lemma TargetIsMonotone(lo: int, hi: int, scale: real, offset: real, x: Double, y: Double)
    requires lo < 0 < hi && scale > 0.0 && x != NaN && y != NaN && AtMost(x, y)
    ensures var t, u := CastTarget(lo, hi, Affine(x, scale, offset)), CastTarget(lo, hi, Affine(y, scale, offset));
            t.Some? && u.Some? && lo <= t.value <= u.value <= hi
  {
    if x.Finite? && y.Finite? {
      Scale(x.x, y.x, scale);
      CastIsMonotone(lo, hi, Linear(x.x, scale, offset), Linear(y.x, scale, offset));
    } else if x.Finite? {
      CastSaturates(lo, hi, Linear(x.x, scale, offset));
    } else if y.Finite? {
      CastSaturates(lo, hi, Linear(y.x, scale, offset));
    }
  }

  // ----- There and back -----

  /** What get_position reports when the device is at the target. */
  function Reported(target: int, fromScale: real, fromOffset: real): real {
    Linear(target as real, fromScale, fromOffset)
  }

  predicate Inverse(scale: real, offset: real, fromScale: real, fromOffset: real) {
    scale * fromScale == 1.0 && fromOffset == -(offset * fromScale)
  }

  /** The report differs from the request by what the target cut off. */
  lemma ReportOf(request: real, scale: real, offset: real, fromScale: real, fromOffset: real, target: int)
    requires Inverse(scale, offset, fromScale, fromOffset)
    ensures Reported(target, fromScale, fromOffset) - request ==
            Times(target as real - Linear(request, scale, offset), fromScale)
  {
  }

  lemma AbsOfProduct(x: real, y: real)
    ensures Abs(Times(x, y)) == Times(Abs(x), Abs(y))
  {
  }

  lemma PositiveTimes(x: real, z: real)
    requires x > 0.0 && z > 0.0
    ensures Times(x, z) > 0.0
  {
  }

  lemma OneLess(x: real, z: real)
    ensures Times(1.0 - x, z) == z - Times(x, z)
    ensures Times(x - 1.0, z) == Times(x, z) - z
    ensures Times(0.0, z) == 0.0
  {
  }

  lemma LessThanOne(x: real, z: real)
    requires x >= 0.0 && z > 0.0
    ensures Times(x, z) < z <==> x < 1.0
    ensures Times(x, z) == 0.0 <==> x == 0.0
  {
    hide Times;
    OneLess(x, z);
    if x < 1.0 {
      PositiveTimes(1.0 - x, z);
    } else if x > 1.0 {
      PositiveTimes(x - 1.0, z);
    }
    if x > 0.0 {
      PositiveTimes(x, z);
    }
  }

  lemma AbsIsZero(x: real)
    ensures Abs(x) >= 0.0 && (Abs(x) == 0.0 <==> x == 0.0)
  {
  }

  lemma ShrinksExactly(x: real, y: real)
    requires y != 0.0
    ensures Abs(Times(x, y)) < Abs(y) <==> Abs(x) < 1.0
    ensures Times(x, y) == 0.0 <==> x == 0.0
  {
    hide Abs, Times;
    AbsOfProduct(x, y);
    AbsIsZero(x);
    AbsIsZero(y);
    AbsIsZero(Times(x, y));
    LessThanOne(Abs(x), Abs(y));
  }

  /** The value is one of the integers of the range. */
  predicate IsTarget(lo: int, hi: int, x: real) {
    lo <= x.Floor <= hi && x.Floor as real == x
  }

  /** What the cast to the target's type cuts off. */
  lemma CastError(lo: int, hi: int, x: real)
    requires lo < 0 < hi
    ensures var target := CastTarget(lo, hi, Finite(x));
            && target.Some?
            && (Abs(target.value as real - x) < 1.0 <==> lo as real - 1.0 < x < hi as real + 1.0)
            && (target.value as real == x <==> IsTarget(lo, hi, x))
            && (x <= lo as real - 1.0 ==> target.value == lo)
            && (x >= hi as real + 1.0 ==> target.value == hi)
  {
    CastSaturates(lo, hi, x);
    TruncateFacts(x);
  }

  /** A request comes back within one device unit exactly when its scaled value is within one
      of the target's range, and unchanged exactly when it is a target: otherwise it saturates. */
  lemma RequestComesBack(lo: int, hi: int, request: real, s: Scales, mode: int)
    requires lo < 0 < hi && mode in POSITION_MODES
    requires Inverse(s.posToDev, s.offsetToDev, s.posFromDev, s.offsetFromDev)
    ensures var scaled := Linear(request, s.posToDev, s.offsetToDev);
            var target := CastTarget(lo, hi, Scaled(mode, s, Finite(request)));
            && target.Some?
            && var back := Reported(target.value, s.posFromDev, s.offsetFromDev);
               && (Abs(back - request) < Abs(s.posFromDev) <==> lo as real - 1.0 < scaled < hi as real + 1.0)
               && (back == request <==> IsTarget(lo, hi, scaled))
               && (scaled <= lo as real - 1.0 ==> target.value == lo)
               && (scaled >= hi as real + 1.0 ==> target.value == hi)
  {
    hide CastTarget, Abs, Inverse, Reported, IsTarget, Times, Linear;
    var scaled := Linear(request, s.posToDev, s.offsetToDev);
    CastError(lo, hi, scaled);
    var target := CastTarget(lo, hi, Finite(scaled)).value;
    ReportOf(request, s.posToDev, s.offsetToDev, s.posFromDev, s.offsetFromDev, target);
    InverseNotZero(s.posToDev, s.offsetToDev, s.posFromDev, s.offsetFromDev);
    ShrinksExactly(target as real - scaled, s.posFromDev);
  }

  lemma InverseNotZero(scale: real, offset: real, fromScale: real, fromOffset: real)
    requires Inverse(scale, offset, fromScale, fromOffset)
    ensures fromScale != 0.0
  {
  }
}
