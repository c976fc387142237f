/** The mode handlers a motor selects between: their targets, and what each writes into the
    mode bits of the control word and into the object dictionary
    (canopen_402_driver/include/canopen_402_driver/mode_target_helper.hpp, mode_forward_helper.hpp,
    profiled_position_mode.hpp and motor.hpp, canopen_402_driver/src/default_homing_mode.cpp). */
module Modes {
  import opened Word16
  import opened Wrappers
  import opened State402
  import opened Command402

  // ----- Targets -----

  /** A double, as far as a target is concerned. */
  datatype Double = NaN | NegativeInfinity | PositiveInfinity | Finite(x: real)

  function Truncate(x: real): int {
    if x >= 0.0 then x.Floor else -((-x).Floor)
  }

  /** v is x cut off after the point. */
  predicate CutOff(v: int, x: real) {
    && (x >= 0.0 ==> 0 <= v && v as real <= x < v as real + 1.0)
    && (x <= 0.0 ==> v <= 0 && v as real - 1.0 < x <= v as real)
  }

  lemma TruncateCutsOff(x: real, v: int)
    ensures CutOff(v, x) <==> v == Truncate(x)
  {
  }

  /** boost::numeric_cast to the integers lo..hi: it rejects what truncation cannot bring
      into range. */
  datatype Cast = Fits(v: int) | NegativeOverflow | PositiveOverflow

  function NumericCast(lo: int, hi: int, x: Double): Cast
    requires x != NaN
  {
    match x
    case NegativeInfinity => NegativeOverflow
    case PositiveInfinity => PositiveOverflow
    case Finite(r) =>
      if r <= lo as real - 1.0 then NegativeOverflow
      else if r >= hi as real + 1.0 then PositiveOverflow
      else Fits(Truncate(r))
  }

  /** The target that setTarget stores, if it stores one. */
  function CastTarget(lo: int, hi: int, val: Double): Option<int> {
    if val == NaN then None else
    match NumericCast(lo, hi, val)
    case Fits(v) => Some(v)
    case NegativeOverflow => Some(lo)
    case PositiveOverflow => Some(hi)
  }

  // ----- Mode handlers as values -----

  const INT16_MIN := -0x8000
  const INT16_MAX := 0x7FFF
  const INT32_MIN := -0x8000_0000
  const INT32_MAX := 0x7FFF_FFFF

  /** The parameters of a forwarding handler: target range, object, control-word bits. */
  datatype Forwarding = Forwarding(lo: int, hi: int, index: int, sub: int, mask: Word)

  datatype Mode =
    | Forward(to: Forwarding, target: int, hasTarget: bool)
    | Position(target: int, hasTarget: bool, last: Option<int>, sw: Word)
    | Homing(execute: bool, status: Word)

  const NO_MODE := 0
  const PROFILED_POSITION := 1
  const HOMING := 6

  /** The forwarding handlers of motor.hpp, by mode of operation. */
  function ForwardingOf(id: int): Option<Forwarding> {
    match id
    case 2 => Some(Forwarding(INT16_MIN, INT16_MAX, 0x6042, 0, {CW_MODE0, CW_MODE1, CW_MODE2}))
    case 3 => Some(Forwarding(INT32_MIN, INT32_MAX, 0x60FF, 0, {}))
    case 4 => Some(Forwarding(INT16_MIN, INT16_MAX, 0x6071, 0, {}))
    case 7 => Some(Forwarding(INT32_MIN, INT32_MAX, 0x60C1, 1, {CW_MODE0}))
    case 8 => Some(Forwarding(INT32_MIN, INT32_MAX, 0x607A, 0, {}))
    case 9 => Some(Forwarding(INT32_MIN, INT32_MAX, 0x60FF, 0, {}))
    case 10 => Some(Forwarding(INT16_MIN, INT16_MAX, 0x6071, 0, {}))
    case _ => None
  }

  /** The handler kept for mode id is of the class registered for that id. */
  predicate Fitting(id: int, m: Mode) {
    match m
    case Forward(to, _, _) => ForwardingOf(id) == Some(to)
    case Position(_, _, _, _) => id == PROFILED_POSITION
    case Homing(_, _) => id == HOMING
  }

  /** The objects that the forwarding modes write, with the ranges of their targets and the bits
      that announce them: velocity, profiled velocity, profiled torque, interpolated position and the
      three cyclic modes. */
  lemma ForwardedObjects(id: int)
    ensures ForwardingOf(id).Some? <==> id in {2, 3, 4, 7, 8, 9, 10}
    ensures ForwardingOf(id).Some? ==>
              var f := ForwardingOf(id).value;
              && (f.index, f.sub) == (if id == 2 then (0x6042, 0) else if id == 4 || id == 10 then (0x6071, 0)
                                      else if id == 7 then (0x60C1, 1) else if id == 8 then (0x607A, 0)
                                      else (0x60FF, 0))
              && (f.lo, f.hi) == (if id in {2, 4, 10} then (-32768, 32767) else (-2147483648, 2147483647))
              && f.mask == if id == 2 then {4, 5, 6} else if id == 7 then {4} else {}
  {
  }

  const HOMING_STATUS: Word := {SW_TARGET_REACHED, SW_MODE_SPECIFIC0, SW_MODE_SPECIFIC1}

  function StartMode(m: Mode): Mode {
    match m
    case Forward(to, target, _) => Forward(to, target, false)
    case Position(target, _, _, _) => Position(target, false, None, {})
    case Homing(_, _) => Homing(false, {})
  }

  /** A start disarms the handler: no target, no last target and no status are left. */
  lemma StartDisarms(m: Mode)
    ensures var s := StartMode(m);
            match m
            case Forward(to, _, _) => s.Forward? && s.to == to && !s.hasTarget
            case Position(_, _, _, _) => s.Position? && !s.hasTarget && s.last == None && s.sw == {}
            case Homing(_, _) => s.Homing? && !s.execute && s.status == {}
  {
  }

  function ReadMode(m: Mode, sw: Word): Mode {
    match m
    case Forward(_, _, _) => m
    case Position(target, hasTarget, last, _) => Position(target, hasTarget, last, sw)
    case Homing(execute, _) => Homing(execute, sw * HOMING_STATUS)
  }

  /** The target the handler would take; homing takes none. */
  function TargetFor(m: Mode, val: Double): Option<int> {
    match m
    case Forward(to, _, _) => CastTarget(to.lo, to.hi, val)
    case Position(_, _, _, _) => CastTarget(INT32_MIN, INT32_MAX, val)
    case Homing(_, _) => None
  }

  function TakeTarget(m: Mode, target: int): Mode {
    match m
    case Forward(to, _, _) => Forward(to, target, true)
    case Position(_, _, last, sw) => Position(target, true, last, sw)
    case Homing(_, _) => m
  }

  /** A value written into the object dictionary of the drive. */
  datatype Frame = Frame(index: int, sub: int, value: int)

  datatype Written = Written(mode: Mode, cw: Word, frame: Option<Frame>, ok: bool)

  function WriteMode(m: Mode, cw: Word): Written {
    match m
    case Forward(to, target, hasTarget) =>
      if hasTarget then
        Written(m, Assign(MODE_BITS, cw, cw * MODE_BITS + to.mask), Some(Frame(to.index, to.sub, target)), true)
      else
        Written(m, Assign(MODE_BITS, cw, cw * MODE_BITS - to.mask), None, false)
    case Position(target, hasTarget, last, sw) =>
      var cw1 := SetBit(MODE_BITS, cw, CW_MODE1);
      if !hasTarget then
        Written(m, cw1, None, false)
      else if SW_MODE_SPECIFIC0 in sw then
        Written(m, ResetBit(MODE_BITS, cw1, CW_MODE0), None, true)
      else if last == Some(target) then
        Written(m, cw1, None, true)
      else if CW_MODE0 in cw1 then
        Written(m, ResetBit(MODE_BITS, cw1, CW_MODE0), None, true)
      else
        Written(Position(target, true, Some(target), sw), SetBit(MODE_BITS, cw1, CW_MODE0),
                Some(Frame(0x607A, 0, target)), true)
    case Homing(execute, _) =>
      var cw1 := Assign(MODE_BITS, cw, {});
      if execute then Written(m, SetBit(MODE_BITS, cw1, CW_MODE0), None, true) else Written(m, cw1, None, false)
  }

  /** The handler has something to drive the motor with. */
  predicate Armed(m: Mode) {
    if m.Homing? then m.execute else m.hasTarget
  }

  /** A handler asks for motion exactly when it is armed, and touches mode bits only. */
  lemma WriteNeedsArmed(m: Mode, cw: Word)
    ensures WriteMode(m, cw).ok <==> Armed(m)
    ensures WriteMode(m, cw).cw - MODE_BITS == cw - MODE_BITS
    ensures WriteMode(m, cw).frame.Some? ==> !m.Homing? && m.hasTarget && WriteMode(m, cw).frame.value.value == m.target
  {
  }

  // ----- The handlers as objects -----

  class ModeTargetHelper {
    const lo: int
    const hi: int
    var target: int
    var hasTarget: bool

    /** The flag is not initialised by the original: it starts with any value. */
    constructor (lo: int, hi: int, anyTarget: int, anyFlag: bool)
      ensures this.lo == lo && this.hi == hi && target == anyTarget && hasTarget == anyFlag
    {
      this.lo, this.hi := lo, hi;
      target, hasTarget := anyTarget, anyFlag;
    }

    method SetTarget(val: Double) returns (ok: bool)
      modifies this
      ensures ok == CastTarget(lo, hi, val).Some?
      ensures ok ==> hasTarget && target == CastTarget(lo, hi, val).value
      ensures !ok ==> hasTarget == old(hasTarget) && target == old(target)
    {
      if val == NaN {
        return false;
      }
      match NumericCast(lo, hi, val) {
        case Fits(v) => target := v;
        case NegativeOverflow => target := lo;
        case PositiveOverflow => target := hi;
      }
      hasTarget := true;
      ok := true;
    }

    method Start() returns (ok: bool)
      modifies this`hasTarget
      ensures ok && !hasTarget
    {
      hasTarget := false;
      ok := true;
    }
  }

  class ModeForwardHelper {
    const to: Forwarding
    const helper: ModeTargetHelper

    constructor (to: Forwarding, helper: ModeTargetHelper)
      requires helper.lo == to.lo && helper.hi == to.hi
      ensures this.to == to && this.helper == helper
    {
      this.to, this.helper := to, helper;
    }

    function Value(): Mode
      reads helper
    {
      Forward(to, helper.target, helper.hasTarget)
    }

    method Write(cw: WordAccessor) returns (ok: bool, frame: Option<Frame>)
      requires cw.mask == MODE_BITS
      modifies cw.cell
      ensures WriteMode(old(Value()), old(cw.cell.word)) == Written(Value(), cw.cell.word, frame, ok)
      ensures Value() == old(Value())
    {
      var bits := cw.Masked();
      if helper.hasTarget {
        cw.Put(bits + to.mask);
        frame := Some(Frame(to.index, to.sub, helper.target));
        ok := true;
      } else {
        cw.Put(bits - to.mask);
        frame := None;
        ok := false;
      }
    }
  }

  class ProfiledPositionMode {
    const helper: ModeTargetHelper
    var lastTarget: Option<int>  // None is the quiet NaN that differs from every target
    var sw: Word

    constructor (helper: ModeTargetHelper, anyLast: Option<int>, anySw: Word)
      ensures this.helper == helper && lastTarget == anyLast && sw == anySw
    {
      this.helper := helper;
      lastTarget, sw := anyLast, anySw;
    }

    function Value(): Mode
      reads this, helper
    {
      Position(helper.target, helper.hasTarget, lastTarget, sw)
    }

    method Start() returns (ok: bool)
      modifies this, helper`hasTarget
      ensures ok && Value() == StartMode(old(Value()))
    {
      sw := {};
      lastTarget := None;
      ok := helper.Start();
    }

    method Read(newSw: Word) returns (ok: bool)
      modifies this`sw
      ensures Value() == ReadMode(old(Value()), newSw) && ok == (SW_MODE_SPECIFIC1 !in newSw)
    {
      sw := newSw;
      ok := SW_MODE_SPECIFIC1 !in sw;
    }

    method Write(cw: WordAccessor) returns (ok: bool, frame: Option<Frame>)
      requires cw.mask == MODE_BITS
      modifies this`lastTarget, cw.cell
      ensures WriteMode(old(Value()), old(cw.cell.word)) == Written(Value(), cw.cell.word, frame, ok)
    {
      frame := None;
      var _ := cw.Set(CW_MODE1);
      if helper.hasTarget {
        var target := helper.target;
        if SW_MODE_SPECIFIC0 !in sw && Some(target) != lastTarget {
          var newPoint := cw.Get(CW_MODE0);
          if newPoint {
            var _ := cw.Reset(CW_MODE0);
          } else {
            frame := Some(Frame(0x607A, 0, target));
            var _ := cw.Set(CW_MODE0);
            lastTarget := Some(target);
          }
        } else if SW_MODE_SPECIFIC0 in sw {
          var _ := cw.Reset(CW_MODE0);
        }
        return true, frame;
      }
      return false, None;
    }
  }
}
