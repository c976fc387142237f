/** The hydraulic axis: climbing the device state machine one poll cycle at a time
    (canopen_408_driver/src/hydraulic_axis.cpp, canopen_408_driver/include/canopen_408_driver/hydraulic_axis.hpp).
    Words are numbers here. A method holds the axis's lock throughout, except that a new set
    point is stored before the lock is taken and sent afterwards: that is two steps. */
module Hydraulic408 {

  const WORD_FAULT_RESET := 0x03
  const WORD_INIT := 0x08
  const WORD_DISABLED := 0x09
  const WORD_HOLD := 0x0B
  const WORD_ACTIVE := 0x0F

  const PHASE_DWELL_TICKS := 15
  const FULL_SCALE := 16384
  const FLOAT := 32767

  newtype int16 = x: int | -32768 <= x < 32768

  datatype Phase = Idle | FaultReset | Init | Disabled | Hold | Active

  datatype Axis = Axis(phase: Phase, ticks: int, enabled: bool, word: int, setPoint: int16)

  datatype Event = Enable | Recover | HoldIt | Disable | Spin | Target(raw: int16)

  function PhaseWord(p: Phase, current: int): int {
    match p
    case FaultReset => WORD_FAULT_RESET
    case Init => WORD_INIT
    case Disabled => WORD_DISABLED
    case Hold => WORD_HOLD
    case Active => WORD_ACTIVE
    case Idle => current
  }

  function NextPhase(p: Phase): Phase {
    match p
    case FaultReset => Init
    case Init => Disabled
    case Disabled => Hold
    case Hold => Active
    case _ => Idle
  }

  function Clamped(raw: int16): int16 {
    if raw == FLOAT as int16 || raw == -FLOAT as int16 then raw
    else if raw < -FULL_SCALE as int16 then -FULL_SCALE as int16
    else if FULL_SCALE as int16 < raw then FULL_SCALE as int16
    else raw
  }

  function Advance(a: Axis): Axis {
    if a.phase == Idle then a else
    var b := a.(word := PhaseWord(a.phase, a.word), ticks := a.ticks + 1);
    if b.ticks < PHASE_DWELL_TICKS then b else
    b.(ticks := 0, phase := NextPhase(a.phase), enabled := a.enabled || a.phase == Active)
  }

  function After(a: Axis, e: Event): Axis {
    match e
    case Enable => Axis(Init, 0, false, a.word, 0)
    case Recover => Axis(FaultReset, 0, false, a.word, 0)
    case HoldIt => a.(phase := Idle, enabled := false, word := WORD_HOLD)
    case Disable => a.(phase := Idle, enabled := false, word := WORD_DISABLED)
    case Spin => Advance(a)
    case Target(raw) => a.(setPoint := Clamped(raw))
  }

  const BOOT := Axis(Idle, 0, false, WORD_DISABLED, 0)

  datatype Frame = ControlWord(word: int) | SetPoint(raw: int16)

  class HydraulicAxis {
    const driver: bool
    var phase: Phase
    var phaseTicks: int
    var enabled: bool
    var currentWord: int
    var lastSetPoint: int16

    function Value(): Axis
      reads this
    {
      Axis(phase, phaseTicks, enabled, currentWord, lastSetPoint)
    }

    constructor (driver: bool)
      ensures Value() == BOOT && this.driver == driver
    {
      this.driver := driver;
      phase, phaseTicks, enabled, currentWord, lastSetPoint := Idle, 0, false, WORD_DISABLED, 0;
    }

    method EnableAxis() returns (accepted: bool)
      modifies this
      ensures Value() == After(old(Value()), Enable) && accepted
    {
      lastSetPoint := 0;
      enabled := false;
      phaseTicks := 0;
      phase := Init;
      accepted := true;
    }

    method RecoverAxis() returns (accepted: bool)
      modifies this
      ensures Value() == After(old(Value()), Recover) && accepted
    {
      lastSetPoint := 0;
      enabled := false;
      phaseTicks := 0;
      phase := FaultReset;
      accepted := true;
    }

    method HoldAxis() returns (accepted: bool)
      modifies this
      ensures Value() == After(old(Value()), HoldIt) && accepted
    {
      phase := Idle;
      enabled := false;
      currentWord := WORD_HOLD;
      accepted := true;
    }

    method DisableAxis() returns (accepted: bool)
      modifies this
      ensures Value() == After(old(Value()), Disable) && accepted
    {
      phase := Idle;
      enabled := false;
      currentWord := WORD_DISABLED;
      accepted := true;
    }

    method AdvancePhase()
      modifies this
      ensures Value() == Advance(old(Value()))
    {
      var p := phase;
      if p == Idle {
        return;
      }
      currentWord := PhaseWord(p, currentWord);
      phaseTicks := phaseTicks + 1;
      if phaseTicks < PHASE_DWELL_TICKS {
        return;
      }
      phaseTicks := 0;
      if p == Active {
        enabled := true;
      }
      phase := NextPhase(p);
    }

    /** The two flags say whether the writes went through. A write that did not changes nothing here. */
    method SpinOnce(wordWritten: bool, setPointWritten: bool) returns (sent: seq<Frame>)
      modifies this
      ensures Value() == After(old(Value()), Spin)
      ensures sent == (if driver && wordWritten then [ControlWord(currentWord)] else []) +
                      (if driver && setPointWritten then [SetPoint(lastSetPoint)] else [])
    {
      AdvancePhase();
      sent := [];
      if driver && wordWritten {
        sent := sent + [ControlWord(currentWord)];
      }
      if driver && setPointWritten {
        sent := sent + [SetPoint(lastSetPoint)];
      }
    }

    /** The first half of set_setpoint: the value it will send. */
    method StoreSetPoint(raw: int16) returns (clamped: int16)
      modifies this`lastSetPoint
      ensures Value() == After(old(Value()), Target(raw)) && clamped == Clamped(raw)
    {
      clamped := Clamped(raw);
      lastSetPoint := clamped;
    }

    /** The second half, under the lock: whatever is stored by then, the value of the first half is sent. */
    method SendSetPoint(clamped: int16, written: bool) returns (ok: bool, sent: seq<Frame>)
      ensures ok == (driver && written) && sent == if ok then [SetPoint(clamped)] else []
    {
      ok := driver && written;
      sent := if ok then [SetPoint(clamped)] else [];
    }

    /** set_setpoint with nothing in between. */
    method SetSetPoint(raw: int16, written: bool) returns (ok: bool, sent: seq<Frame>)
      modifies this`lastSetPoint
      ensures Value() == After(old(Value()), Target(raw)) && ok == (driver && written)
      ensures sent == if ok then [SetPoint(lastSetPoint)] else []
    {
      var clamped := StoreSetPoint(raw);
      ok, sent := SendSetPoint(clamped, written);
    }
  }

  // ----- The closed form -----

  function Run(events: seq<Event>): Axis {
    if events == [] then BOOT else After(Run(events[..|events| - 1]), events[|events| - 1])
  }

  predicate IsCommand(e: Event) {
    e.Enable? || e.Recover? || e.HoldIt? || e.Disable?
  }

  /** Poll cycles since the last command. */
  function Spins(events: seq<Event>): nat {
    if events == [] || IsCommand(events[|events| - 1]) then 0
    else Spins(events[..|events| - 1]) + if events[|events| - 1] == Spin then 1 else 0
  }

  /** The last command. A fresh axis is as after Disable. */
  function LastCommand(events: seq<Event>): Event {
    if events == [] then Disable
    else if IsCommand(events[|events| - 1]) then events[|events| - 1]
    else LastCommand(events[..|events| - 1])
  }

  /** Poll cycles of the whole climb, fault reset included, that lie behind the axis. */
  function Climbed(events: seq<Event>): nat {
    Spins(events) + if LastCommand(events) == Enable then PHASE_DWELL_TICKS else 0
  }

  const CLIMB := [FaultReset, Init, Disabled, Hold, Active]

  /** The word of the k-th poll cycle of the whole climb, counted from one. */
  function ClimbWord(k: nat): int
    requires k > 0
  {
    if k > 75 then WORD_ACTIVE else PhaseWord(CLIMB[(k - 1) / 15], 0)
  }

  predicate Climbs(events: seq<Event>) {
    LastCommand(events) == Enable || LastCommand(events) == Recover
  }

  /** Where an axis is after k cycles of the whole climb. */
  predicate AtClimb(a: Axis, k: nat) {
    if k >= 75 then a.phase == Idle && a.ticks == 0 && a.enabled
    else a.phase == CLIMB[k / 15] && a.ticks == k % 15 && !a.enabled
  }

  lemma AdvanceClimbs(a: Axis, k: nat)
    requires AtClimb(a, k) && (k > 75 || k == 75 ==> a.word == WORD_ACTIVE)
    ensures AtClimb(Advance(a), k + 1) && Advance(a).word == ClimbWord(k + 1)
  {
    if k < 75 {
      var j := k / 15;
      assert k == 15 * j + k % 15;
      if k % 15 == 14 {
        assert k + 1 == 15 * (j + 1);
        assert k < 74 ==> (k + 1) / 15 == j + 1 && (k + 1) % 15 == 0;
      } else {
        assert (k + 1) / 15 == j && (k + 1) % 15 == k % 15 + 1;
      }
    }
  }

  /** After every run of commands, poll cycles and set points, in any order: the state of the
      climb is a function of the last command and of the poll cycles since then, and so is
      the word streamed last. */
  lemma {:induction false} RunIsClosedForm(events: seq<Event>)
    ensures Climbs(events) ==> AtClimb(Run(events), Climbed(events))
    ensures Climbs(events) && Spins(events) > 0 ==> Run(events).word == ClimbWord(Climbed(events))
    ensures !Climbs(events) ==> Run(events).phase == Idle && !Run(events).enabled
    ensures LastCommand(events) == HoldIt ==> Run(events).word == WORD_HOLD
    ensures LastCommand(events) == Disable ==> Run(events).word == WORD_DISABLED
  {
    if events != [] {
      var before, e := events[..|events| - 1], events[|events| - 1];
      RunIsClosedForm(before);
      if !IsCommand(e) {
        assert LastCommand(events) == LastCommand(before);
        if e == Spin && Climbs(events) {
          AdvanceClimbs(Run(before), Climbed(before));
        }
      }
    }
  }

  /** What the poll cycle number n after a command streams, in the device's own terms. */
  function Streamed(command: Event, n: nat): int
    decreases n
  {
    match command
    case Recover => if n <= 15 then 0x03 else Streamed(Enable, n - 15)
    case Enable => if n <= 15 then 0x08 else if n <= 30 then 0x09 else if n <= 45 then 0x0B else 0x0F
    case HoldIt => 0x0B
    case _ => 0x09
  }

  /** After any run, the word the next poll cycle streams depends on the last command and the
      number of poll cycles since only: the climb takes 15 of each word, fault reset first
      after a recovery, and holds the active word from then on. */
  lemma StreamIsClosedForm(events: seq<Event>)
    ensures Run(events + [Spin]).word == Streamed(LastCommand(events), Spins(events) + 1)
  {
    var all := events + [Spin];
    assert all[..|all| - 1] == events;
    CommandIsLast(events);
    RunIsClosedForm(all);
    if Climbs(events) {
      var k := Climbed(all);
      DwellOf(k - 1);
    }
  }

  lemma {:induction false} CommandIsLast(events: seq<Event>)
    ensures IsCommand(LastCommand(events))
  {
    if events != [] && !IsCommand(events[|events| - 1]) {
      CommandIsLast(events[..|events| - 1]);
    }
  }

  lemma DwellOf(k: nat)
    ensures k < 15 ==> k / 15 == 0
    ensures 15 <= k < 30 ==> k / 15 == 1
    ensures 30 <= k < 45 ==> k / 15 == 2
    ensures 45 <= k < 60 ==> k / 15 == 3
    ensures 60 <= k < 75 ==> k / 15 == 4
  {
  }

  /** The axis reports enabled exactly when its last command was to enable, 60 poll cycles
      ago or more, or to recover, 75 or more. */
  lemma EnabledExactly(events: seq<Event>)
    ensures Run(events).enabled <==>
            || (LastCommand(events) == Enable && Spins(events) >= 60)
            || (LastCommand(events) == Recover && Spins(events) >= 75)
  {
    RunIsClosedForm(events);
  }

  /** In every reachable state: enabled means that the climb is over and the active word is
      streamed, a phase is dwelt in for less than 15 cycles, and the set point is in range or
      one of the two float requests. */
  lemma {:induction false} ReachableStates(events: seq<Event>)
    ensures var a := Run(events);
            && (a.enabled ==> a.phase == Idle && a.word == WORD_ACTIVE)
            && 0 <= a.ticks < PHASE_DWELL_TICKS
            && (|| -FULL_SCALE <= a.setPoint as int <= FULL_SCALE
                || a.setPoint as int == FLOAT || a.setPoint as int == -FLOAT)
  {
    if events != [] {
      ReachableStates(events[..|events| - 1]);
    }
  }

  /** The set point streamed is the last one given, clamped, unless a command to climb came
      after it: that puts it to neutral. */
  lemma {:induction false} SetPointIsTheLast(events: seq<Event>)
    ensures var a := Run(events);
            || (a.setPoint == 0 && NoTargetSince(events, 0))
            || exists i :: 0 <= i < |events| && NoTargetSince(events, i + 1) &&
                           match events[i]
                           case Target(raw) => a.setPoint == Clamped(raw)
                           case e => (e == Enable || e == Recover) && a.setPoint == 0
  {
    if events != [] {
      var n := |events| - 1;
      SetPointIsTheLast(events[..n]);
      var e := events[n];
      if e.Target? || e == Enable || e == Recover {
        assert NoTargetSince(events, n + 1);
      } else if Run(events[..n]).setPoint == 0 && NoTargetSince(events[..n], 0) {
        assert NoTargetSince(events, 0);
      } else {
        var i :| 0 <= i < n && NoTargetSince(events[..n], i + 1) &&
                 match events[..n][i]
                 case Target(raw) => Run(events[..n]).setPoint == Clamped(raw)
                 case e => (e == Enable || e == Recover) && Run(events[..n]).setPoint == 0;
        assert NoTargetSince(events, i + 1);
        assert events[..n][i] == events[i];
      }
    }
  }

  /** Nothing from position i on touches the set point. */
  predicate NoTargetSince(events: seq<Event>, i: nat) {
    forall j :: i <= j < |events| ==> !events[j].Target? && events[j] != Enable && events[j] != Recover
  }

  /** What the events leave as the set point, if they write it. */
  function LastWritten(events: seq<Event>): int16
    requires events != [] && !NoTargetSince(events, 0)
  {
    match events[|events| - 1]
    case Target(raw) => Clamped(raw)
    case Enable => 0
    case Recover => 0
    case _ =>
      assert !NoTargetSince(events[..|events| - 1], 0);
      LastWritten(events[..|events| - 1])
  }

  lemma {:induction false} SetPointAfter(before: seq<Event>, between: seq<Event>)
    ensures Run(before + between).setPoint ==
            if NoTargetSince(between, 0) then Run(before).setPoint else LastWritten(between)
  {
    if between == [] {
      assert before + between == before;
    } else {
      var n := |between| - 1;
      assert (before + between)[..|before + between| - 1] == before + between[..n];
      SetPointAfter(before, between[..n]);
    }
  }

  /** A set point is kept within full scale, 16384 either way, except the two float requests. */
  lemma ClampedExactly(raw: int16)
    ensures var r := Clamped(raw) as int;
            if raw as int == 32767 || raw as int == -32767 then r == raw as int
            else -16384 <= r <= 16384 && (-16384 <= raw as int <= 16384 ==> r == raw as int)
                 && (raw as int > 16384 ==> r == 16384) && (raw as int < -16384 ==> r == -16384)
  {
  }

  /** The set point that set_setpoint sends is the one streamed then exactly when nothing wrote
      another one between its store and its send: a command to climb in between puts the axis to
      neutral, and the old value is still sent once. */
  lemma SentIsStreamedExactly(before: seq<Event>, raw: int16, between: seq<Event>)
    ensures Clamped(raw) == Run(before + [Target(raw)] + between).setPoint <==>
            NoTargetSince(between, 0) || LastWritten(between) == Clamped(raw)
  {
    SetPointAfter(before + [Target(raw)], between);
    var all := before + [Target(raw)];
    assert all[..|all| - 1] == before;
  }
}
