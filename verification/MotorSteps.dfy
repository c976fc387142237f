/** The motor: what the poll timer, the switching calls and the service calls do to the
    control word, the observed state, the target state and the selected mode
    (canopen_402_driver/src/motor.cpp, canopen_402_driver/include/canopen_402_driver/motor.hpp). */
module MotorSteps {
  import opened Word16
  import opened Wrappers
  import opened State402
  import opened Command402
  import opened Modes
  import HomingRun = Homing

  /** The fields of a motor. */
  datatype Motor = Motor(
    cw: Word,
    observed: InternalState,
    targetState: InternalState,
    faultReset: bool,          // start_fault_reset_
    modes: map<int, Mode>,
    selected: Option<int>,
    displayed: int,            // mode_id_
    opMode: int)               // the last value written to 0x6060

  /** The selected handler is one of the registered ones, which are of their registered class. */
  predicate WellFormed(m: Motor) {
    && (m.selected.Some? ==> m.selected.value in m.modes)
    && forall id <- m.modes :: Fitting(id, m.modes[id])
  }

  // ----- The critical sections, as functions of the fields -----

  /** The handler that may act: the selected one, if the drive displays its mode. */
  predicate Matches(m: Motor) {
    m.selected == Some(m.displayed)
  }

  datatype Output = Output(sent: Word, frame: Option<Frame>)

  function AfterWrite(m: Motor): (Motor, Output)
    requires WellFormed(m)
  {
    var cw := m.cw + {CW_HALT};
    var r :=
      if m.observed != OperationEnable then
        (m.(cw := cw), None)
      else if Matches(m) then
        var w := WriteMode(m.modes[m.displayed], cw);
        (m.(cw := if w.ok then w.cw - {CW_HALT} else w.cw, modes := m.modes[m.displayed := w.mode]), w.frame)
      else
        (m.(cw := Assign(MODE_BITS, cw, {})), None);
    var sent := if m.faultReset then r.0.cw - {CW_FAULT_RESET} else r.0.cw;
    (r.0.(faultReset := false), Output(sent, r.1))
  }

  /** The bits of the word say what the handler asks for: a forwarding mode sets its bits and sends
      its target, or clears them; profiled position holds bit 5 and moves bit 4, raising it only
      with a new target and a drive that neither acknowledges nor still has the last one up; homing
      shows bit 4 while it executes. Halt (bit 8) is clear just when there is something to do. */
  predicate AsksRight(h: Mode, cw: Word, h': Mode, cw': Word, frame: Option<Frame>) {
    match h
    case Forward(to, target, hasTarget) =>
      && h' == h
      && (forall b: bit :: b in {4, 5, 6, 9} ==>
            (b in cw' <==> if hasTarget then b in cw || b in to.mask else b in cw && b !in to.mask))
      && (8 in cw' <==> !hasTarget)
      && frame == if hasTarget then Some(Frame(to.index, to.sub, target)) else None
    case Position(target, hasTarget, last, sw) =>
      var posts := hasTarget && 12 !in sw && last != Some(target) && 4 !in cw;
      && h' == Position(target, hasTarget, if posts then Some(target) else last, sw)
      && (4 in cw' <==> posts || (4 in cw && (hasTarget ==> 12 !in sw && last == Some(target))))
      && 5 in cw' && (6 in cw' <==> 6 in cw) && (9 in cw' <==> 9 in cw) && (8 in cw' <==> !hasTarget)
      && frame == if posts then Some(Frame(0x607A, 0, target)) else None
    case Homing(execute, _) =>
      && h' == h && frame == None
      && (4 in cw' <==> execute) && 5 !in cw' && 6 !in cw' && 9 !in cw' && (8 in cw' <==> !execute)
  }

  /** What handleWrite owes the drive, bit by bit, without and with a handler to ask. */
  predicate SendsRight(m: Motor, m': Motor, out: Output) {
    && (forall b: bit :: b !in {4, 5, 6, 8, 9} ==> (b in m'.cw <==> b in m.cw))
    && (forall b: bit :: b in out.sent <==> b in m'.cw && (b == 7 ==> !m.faultReset))
    && m'.modes.Keys == m.modes.Keys
    && if m.observed != OperationEnable then
         && m'.modes == m.modes && out.frame == None
         && 8 in m'.cw && forall b: bit :: b in {4, 5, 6, 9} ==> (b in m'.cw <==> b in m.cw)
       else if m.selected != Some(m.displayed) then
         && m'.modes == m.modes && out.frame == None
         && 8 in m'.cw && 4 !in m'.cw && 5 !in m'.cw && 6 !in m'.cw && 9 !in m'.cw
       else
         && m.displayed in m.modes && m.displayed in m'.modes
         && (forall id <- m.modes :: id != m.displayed ==> m'.modes[id] == m.modes[id])
         && AsksRight(m.modes[m.displayed], m.cw, m'.modes[m.displayed], m'.cw, out.frame)
  }

  lemma WriteAsksRight(h: Mode, cw: Word)
    ensures var w := WriteMode(h, cw + {CW_HALT});
            AsksRight(h, cw, w.mode, if w.ok then w.cw - {CW_HALT} else w.cw, w.frame)
  {
  }

  /** Every word that handleWrite sends is right. */
  lemma WriteSendsRight(m: Motor)
    requires WellFormed(m)
    ensures var (m', out) := AfterWrite(m); SendsRight(m, m', out)
  {
    HandleWriteOwnsPollBits(m);
    if m.observed == OperationEnable && Matches(m) {
      WriteAsksRight(m.modes[m.displayed], m.cw);
    }
    hide WriteMode, AsksRight;
  }

  function ReadStatus(m: Motor, sw: Word): Motor {
    m.(observed := Decode(sw))
  }

  function ReadDisplay(m: Motor, sw: Word, display: int): Motor
    requires WellFormed(m)
  {
    if m.selected == Some(display) then
      m.(modes := m.modes[display := ReadMode(m.modes[display], sw)], displayed := display)
    else
      m.(displayed := display)
  }

  /** The target that setTarget passes on, when it gets that far. */
  function AcceptedTarget(m: Motor, val: Double): Option<int>
    requires WellFormed(m)
  {
    if m.observed == OperationEnable && m.selected.Some? then TargetFor(m.modes[m.selected.value], val) else None
  }

  function AfterTarget(m: Motor, val: Double): Motor
    requires WellFormed(m)
  {
    var t := AcceptedTarget(m, val);
    if t.None? then m else
    var id := m.selected.value;
    m.(modes := m.modes[id := TakeTarget(m.modes[id], t.value)])
  }

  function StartHandler(m: Motor, id: int): Motor
    requires id in m.modes
  {
    m.(modes := m.modes[id := StartMode(m.modes[id])])
  }

  function AfterHalt(m: Motor): (Motor, bool) {
    if m.observed == FaultReactionActive || m.observed == Fault then
      (m, false)
    else if m.observed != OperationEnable then
      (m.(targetState := m.observed), true)
    else
      var r := SetTransition(m.cw, m.observed, QuickStopActive, false);
      (m.(targetState := QuickStopActive, cw := r.cw), r.ok)
  }

  /** The part of handleRecover before its switchState. */
  function BeginRecover(m: Motor): Motor
    requires WellFormed(m)
  {
    var m1 := m.(faultReset := true);
    if m.selected.Some? then StartHandler(m1, m.selected.value) else m1
  }

  /** The part of handleInit before its switchState. */
  function BeginInit(m: Motor): Motor {
    m.(cw := {}, faultReset := true)
  }

  function ApplyTransition(m: Motor, local: InternalState): (Motor, Transition) {
    var r := SetTransition(m.cw, local, m.targetState, true);
    (m.(cw := r.cw), r)
  }

  /** Handlers of the same class that agree on whether homing executes: what reads, writes,
      starts and targets can make of a handler. */
  predicate Alike(a: Mode, b: Mode) {
    match a
    case Forward(to, _, _) => b.Forward? && b.to == to
    case Position(_, _, _, _) => b.Position?
    case Homing(execute, _) => b.Homing? && b.execute == execute
  }

  /** What the poll thread and other calls leave while a call waits: the stored word, the
      pending fault reset, the mode displayed, and the state of the selected handler. */
  datatype Poll = Poll(word: Word, faultReset: bool, displayed: int, handler: Option<Mode>)

  function Handled(m: Motor, handler: Option<Mode>): map<int, Mode> {
    if m.selected.Some? && m.selected.value in m.modes && handler.Some? &&
       Alike(m.modes[m.selected.value], handler.value)
    then m.modes[m.selected.value := handler.value]
    else m.modes
  }

  function AfterPoll(m: Motor, p: Poll): Motor {
    m.(cw := p.word, faultReset := p.faultReset, displayed := p.displayed, modes := Handled(m, p.handler))
  }

  function Retarget(m: Motor, target: Option<InternalState>): Motor {
    if target.Some? then m.(targetState := target.value) else m
  }

  /** One turn of the loop of switchState: a target state that another call sets between its
      test and its transition, what happens while it waits, and the states decoded before
      the deadline. */
  datatype Wait = Wait(early: Option<InternalState>, poll: Poll, late: Option<InternalState>, seen: seq<InternalState>)

  function Meanwhile(m: Motor, w: Wait, known: InternalState): Motor {
    Retarget(AfterPoll(m, w.poll), w.late).(observed := FirstOther(known, m.observed, w.seen))
  }

  /** One turn: the motor afterwards, whether the loop goes on, and from which state.
      setTransition leaves `next` at its initial value 0, which is Start, when the target has
      become the state itself: only there it does not wait. */
  function Turn(m: Motor, local: InternalState, w: Wait): (Motor, bool, InternalState) {
    var (m1, r) := ApplyTransition(Retarget(m, w.early), local);
    if !r.ok then (m1, false, local)
    else if r.next == None && local == Start then (m1, true, local)
    else
      var m2 := Meanwhile(m1, w, local);
      (m2, m2.observed != local, m2.observed)
  }

  /** The loop of switchState from the state it acts on. Without a further turn in the
      script the deadline has passed. */
  function SwitchFrom(m: Motor, local: InternalState, waits: seq<Wait>): (Motor, InternalState, bool)
    decreases |waits|
  {
    if local == m.targetState then
      (m, local, true)
    else if waits == [] then
      (ApplyTransition(m, local).0, local, false)
    else
      var (m1, goesOn, next) := Turn(m, local, waits[0]);
      if goesOn then SwitchFrom(m1, next, waits[1..]) else (m1, next, false)
  }

  function AfterSwitch(m: Motor, target: InternalState, waits: seq<Wait>): (Motor, bool) {
    var (m1, local, reached) := SwitchFrom(m.(targetState := target), m.observed, waits);
    (m1, reached && local == target)
  }

  /** switchMode drops the selected handler, unless the wanted one is selected and displayed. */
  function Deselect(m: Motor, mode: int): (Motor, bool) {
    if m.displayed == mode && m.selected == Some(mode) then (m, true) else (m.(selected := None), false)
  }

  function Request(m: Motor, mode: int): Motor {
    m.(opMode := mode)
  }

  /** The end of its wait: select the handler if its mode is displayed, otherwise ask for
      the displayed mode back. */
  function Decide(m: Motor, mode: int): (Motor, bool) {
    if m.displayed == mode then (m.(selected := Some(mode)), true) else (m.(opMode := m.displayed), false)
  }

  /** One turn of the wait for the display: what the poll thread and other calls do, and the
      status word read. */
  datatype Sight = Sight(poll: Poll, sw: Word, target: Option<InternalState>)

  function AfterSight(m: Motor, s: Sight): Motor {
    ReadStatus(Retarget(AfterPoll(m, s.poll), s.target), s.sw)
  }

  /** The motor when the wait for `mode` ends, given what is seen before the deadline. */
  function UntilShown(m: Motor, mode: int, sights: seq<Sight>): Motor
    decreases |sights|
  {
    if m.displayed == mode || sights == [] then m else UntilShown(AfterSight(m, sights[0]), mode, sights[1..])
  }

  /** switchMode from the dropped handler up to its decision: the motor there, and whether it
      gets that far. */
  function BeforeDecision(m: Motor, off: InternalState, mode: int,
                          offWaits: seq<Wait>, sights: seq<Sight>): (Motor, bool)
  {
    var (m2, isOff) := AfterSwitch(m, off, offWaits);
    if !isOff then (m2, false) else (UntilShown(Request(m2, mode), mode, sights), true)
  }

  /** switchMode from the dropped handler on. */
  function AfterDrop(m: Motor, off: InternalState, mode: int,
                     offWaits: seq<Wait>, sights: seq<Sight>, onWaits: seq<Wait>): (Motor, bool)
  {
    var (d, isOff) := BeforeDecision(m, off, mode, offWaits, sights);
    if !isOff then (d, false) else
    var (m4, okay) := Decide(d, mode);
    var (m5, isOn) := AfterSwitch(m4, OperationEnable, onWaits);
    (m5, okay && isOn)
  }

  /** All of switchMode for a mode other than No_Mode, with the scripts of its three waits. */
  function AfterSwitchMode(m: Motor, off: InternalState, mode: int, supported: bool,
                           offWaits: seq<Wait>, sights: seq<Sight>, onWaits: seq<Wait>): (Motor, bool)
  {
    if !supported || mode !in m.modes then (m, false) else
    var (m1, already) := Deselect(StartHandler(m, mode), mode);
    if already then (m1, true) else AfterDrop(m1, off, mode, offWaits, sights, onWaits)
  }

  /** The part of handleInit that registers the handlers, known ones excepted, and reads the drive. */
  function Registered(m: Motor, handlers: map<int, Mode>, sw: Word, display: int): Motor
    requires WellFormed(m) && forall id <- handlers :: Fitting(id, handlers[id])
  {
    ReadDisplay(ReadStatus(m.(modes := handlers + m.modes), sw), sw, display)
  }

  /** handleInit up to the end of its first switchState. */
  function Enabled(m: Motor, handlers: map<int, Mode>, sw: Word, display: int, waits: seq<Wait>): (Motor, bool)
    requires WellFormed(m) && forall id <- handlers :: Fitting(id, handlers[id])
  {
    AfterSwitch(BeginInit(Registered(m, handlers, sw, display)), OperationEnable, waits)
  }

  function SelectHoming(m: Motor, off: InternalState, s: HomingScript): (Motor, bool) {
    AfterSwitchMode(m, off, HOMING, s.supported, s.offWaits, s.sights, s.onWaits)
  }

  function AfterSights(m: Motor, sights: seq<Sight>): Motor
    decreases |sights|
  {
    if sights == [] then m else AfterSights(AfterSight(m, sights[0]), sights[1..])
  }

  /** The statuses the homing handler sees: the one it has, and then one for each read of
      the drive, the masked status word if homing is displayed. */
  function Statuses(status: Word, sights: seq<Sight>): (all: HomingRun.Stream)
    ensures |all| == |sights| + 1
    decreases |sights|
  {
    if sights == [] then [status]
    else
      var next := if sights[0].poll.displayed == HOMING then sights[0].sw * HOMING_STATUS else status;
      [status] + Statuses(next, sights[1..])
  }

  /** The motor once homing has ended. */
  function HomingDone(m: Motor, ok: bool, sights: seq<Sight>, status: Word): Motor {
    var all := Statuses(status, sights);
    var m1 := AfterSights(m, sights);
    var m2 := m1.(modes := m1.modes[HOMING := Homing(false, all[|all| - 1])]);
    if ok then m2.(selected := None, opMode := NO_MODE) else m2
  }

  /** What the homing part of handleInit meets: the waits of its mode switch, the homing
      method of the drive, and what is read and polled while homing runs, with the deadlines of
      its waits as positions in it. */
  datatype HomingScript = HomingScript(
    supported: bool, offWaits: seq<Wait>, sights: seq<Sight>, onWaits: seq<Wait>,
    method_: int, during: seq<Sight>, prepare: nat, finish: nat)

  /** What executeHoming returns. */
  predicate HomesFrom(status: Word, s: HomingScript) {
    s.method_ == 0 || HomingRun.Stages(Statuses(status, s.during), 0, 0, s.prepare, s.finish) == HomingRun.Homed
  }

  class Motor402 {
    var controlWord: Word
    const stateHandler: StateHandler
    var targetState: InternalState
    var startFaultReset: bool
    var modes: map<int, Mode>
    var selectedMode: Option<int>
    var modeId: int
    var opMode: int
    const switchingState: InternalState

    constructor (switchingState: InternalState, anyWord: Word, anyFlag: bool, anyMode: int)
      ensures WellFormed(Value()) && selectedMode == None && modes == map[] && fresh(stateHandler)
      ensures this.switchingState == switchingState && Value().observed == Start
    {
      this.switchingState := switchingState;
      stateHandler := new StateHandler();
      controlWord, targetState, startFaultReset := anyWord, Start, anyFlag;
      modes, selectedMode, modeId, opMode := map[], None, anyMode, 0;
    }

    function Value(): Motor
      reads this, stateHandler
    {
      Motor(controlWord, stateHandler.state, targetState, startFaultReset, modes, selectedMode, modeId, opMode)
    }

    method GetMode() returns (mode: int)
      ensures mode == if selectedMode.Some? then selectedMode.value else NO_MODE
    {
      mode := if selectedMode.Some? then selectedMode.value else NO_MODE;
    }

    method SetTarget(val: Double) returns (ok: bool)
      requires WellFormed(Value())
      modifies this`modes
      ensures WellFormed(Value()) && Value() == AfterTarget(old(Value()), val)
      ensures ok == AcceptedTarget(old(Value()), val).Some?
    {
      ok := false;
      if stateHandler.state == OperationEnable {
        if selectedMode.Some? {
          var t := TargetFor(modes[selectedMode.value], val);
          if t.Some? {
            modes := modes[selectedMode.value := TakeTarget(modes[selectedMode.value], t.value)];
            ok := true;
          }
        }
      }
    }

    /** Reads the status word and the mode display, each under its own lock. */
    method ReadState(sw: Word, display: int)
      requires WellFormed(Value())
      modifies this`modes, this`modeId, stateHandler
      ensures WellFormed(Value())
      ensures Value() == ReadDisplay(ReadStatus(old(Value()), sw), sw, display)
    {
      var _ := stateHandler.Read(sw);
      if selectedMode == Some(display) {
        modes := modes[display := ReadMode(modes[display], sw)];
      }
      if display != modeId {
        modeId := display;
      }
    }

    method HandleWrite() returns (out: Output)
      requires WellFormed(Value())
      modifies this`controlWord, this`modes, this`startFaultReset
      ensures WellFormed(Value()) && (Value(), out) == AfterWrite(old(Value()))
      ensures SendsRight(old(Value()), Value(), out)
    {
      hide AsksRight;
      WriteSendsRight(Value());
      var frame := None;
      controlWord := controlWord + {CW_HALT};
      if stateHandler.state == OperationEnable {
        var okay := false;
        if selectedMode == Some(modeId) {
          var w := WriteMode(modes[modeId], controlWord);
          controlWord, okay, frame := w.cw, w.ok, w.frame;
          modes := modes[modeId := w.mode];
        } else {
          controlWord := Assign(MODE_BITS, controlWord, {});
        }
        if okay {
          controlWord := controlWord - {CW_HALT};
        }
      }
      if startFaultReset {
        startFaultReset := false;
        out := Output(controlWord - {CW_FAULT_RESET}, frame);
      } else {
        out := Output(controlWord, frame);
      }
    }

    method HandleHalt() returns (ok: bool)
      modifies this`targetState, this`controlWord
      ensures (Value(), ok) == AfterHalt(old(Value()))
    {
      var state := stateHandler.state;
      if state == FaultReactionActive || state == Fault {
        return false;
      }
      if state != OperationEnable {
        targetState := state;
      } else {
        targetState := QuickStopActive;
        var r := SetTransition(controlWord, state, QuickStopActive, false);
        controlWord := r.cw;
        if !r.ok {
          return false;
        }
      }
      ok := true;
    }

    method TakePoll(p: Poll, target: Option<InternalState>)
      modifies this`controlWord, this`startFaultReset, this`modeId, this`targetState, this`modes
      ensures Value() == Retarget(AfterPoll(old(Value()), p), target)
    {
      modes := Handled(Value(), p.handler);
      controlWord, startFaultReset, modeId := p.word, p.faultReset, p.displayed;
      if target.Some? {
        targetState := target.value;
      }
    }

    /** One turn of the loop of switchState: whether it goes on, and from which state. */
    method TurnSwitch(state: InternalState, w: Wait) returns (goesOn: bool, next: InternalState)
      modifies this`targetState, this`controlWord, this`startFaultReset, this`modeId, this`modes, stateHandler
      ensures (Value(), goesOn, next) == Turn(old(Value()), state, w)
    {
      hide SetTransition, FirstOther, Handled;
      goesOn, next := false, state;
      if w.early.Some? {
        targetState := w.early.value;
      }
      var r := SetTransition(controlWord, state, targetState, true);
      controlWord := r.cw;
      if r.ok && r.next == None && state == Start {
        goesOn := true;
      } else if r.ok {
        TakePoll(w.poll, w.late);
        goesOn, next := stateHandler.WaitForNewState(state, w.seen);
      }
    }

    method SwitchState(target: InternalState, waits: seq<Wait>) returns (ok: bool)
      modifies this`targetState, this`controlWord, this`startFaultReset, this`modeId, this`modes, stateHandler
      ensures (Value(), ok) == AfterSwitch(old(Value()), target, waits)
    {
      hide Turn, ApplyTransition;
      var state := stateHandler.state;
      targetState := target;
      var i := 0;
      ghost var goal := SwitchFrom(Value(), state, waits);
      while state != targetState
        invariant 0 <= i <= |waits|
        invariant SwitchFrom(Value(), state, waits[i..]) == goal
        decreases |waits| - i
      {
        if i == |waits| {
          SetLastTransition(state);
          return false;
        }
        assert waits[i..][0] == waits[i] && waits[i..][1..] == waits[i + 1..];
        var goesOn;
        goesOn, state := TurnSwitch(state, waits[i]);
        if !goesOn {
          return false;
        }
        i := i + 1;
      }
      ok := state == target;
    }

    /** The turn whose wait is past the deadline. */
    method SetLastTransition(state: InternalState)
      modifies this`controlWord
      ensures Value() == ApplyTransition(old(Value()), state).0
    {
      var r := SetTransition(controlWord, state, targetState, true);
      controlWord := r.cw;
    }

    method SwitchMode(mode: int, supported: bool,
                      offWaits: seq<Wait>, sights: seq<Sight>, onWaits: seq<Wait>) returns (ok: bool)
      requires WellFormed(Value())
      modifies this, stateHandler
      ensures WellFormed(Value())
      ensures mode == NO_MODE ==> ok && Value() == old(Value()).(selected := None, opMode := NO_MODE)
      ensures mode != NO_MODE ==>
                (Value(), ok) ==
                AfterSwitchMode(old(Value()), switchingState, mode, supported, offWaits, sights, onWaits)
    {
      hide AfterDrop, BeforeDecision, ForwardingOf, StartMode;
      if mode == NO_MODE {
        selectedMode := None;
        opMode := NO_MODE;
        return true;
      }
      SwitchModeWellFormed(Value(), switchingState, mode, supported, offWaits, sights, onWaits);
      if !supported || mode !in modes {
        return false;
      }
      modes := modes[mode := StartMode(modes[mode])];
      if modeId == mode && selectedMode == Some(mode) {
        return true;
      }
      selectedMode := None;
      ok := SwitchDropped(mode, offWaits, sights, onWaits);
    }

    /** switchMode from the dropped handler on. */
    method SwitchDropped(mode: int, offWaits: seq<Wait>, sights: seq<Sight>, onWaits: seq<Wait>) returns (ok: bool)
      modifies this, stateHandler
      ensures (Value(), ok) == AfterDrop(old(Value()), switchingState, mode, offWaits, sights, onWaits)
    {
      hide AfterSwitch, UntilShown;
      var isOff := SwitchState(switchingState, offWaits);
      if !isOff {
        return false;
      }
      var okay := ChooseMode(mode, sights);
      var isOn := SwitchState(OperationEnable, onWaits);
      ok := okay && isOn;
    }

    method HandleRecover(waits: seq<Wait>) returns (ok: bool)
      requires WellFormed(Value())
      modifies this`startFaultReset, this`modes, this`targetState, this`controlWord, this`modeId, stateHandler
      ensures (Value(), ok) == AfterSwitch(BeginRecover(old(Value())), OperationEnable, waits)
    {
      startFaultReset := true;
      if selectedMode.Some? {
        modes := modes[selectedMode.value := StartMode(modes[selectedMode.value])];
      }
      ok := SwitchState(OperationEnable, waits);
    }

    /** handleShutdown, whose mode switch always succeeds. */
    method HandleShutdown(waits: seq<Wait>) returns (ok: bool)
      requires WellFormed(Value())
      modifies this, stateHandler
      ensures (Value(), ok) == AfterSwitch(old(Value()).(selected := None, opMode := NO_MODE), SwitchOnDisabled, waits)
    {
      var _ := SwitchMode(NO_MODE, false, [], [], []);
      ok := SwitchState(SwitchOnDisabled, waits);
    }

    method HandleInit(handlers: map<int, Mode>, sw: Word, display: int, waits: seq<Wait>, s: HomingScript)
      returns (ok: bool)
      requires WellFormed(Value()) && forall id <- handlers :: Fitting(id, handlers[id])
      modifies this, stateHandler
      ensures var (m1, up) := Enabled(old(Value()), handlers, sw, display, waits);
              && (!up ==> !ok && Value() == m1)
              && (up && !(s.supported && HOMING in m1.modes) ==> ok && Value() == m1)
              && (up && s.supported && HOMING in m1.modes ==>
                    var (m2, selected) := SelectHoming(m1, switchingState, s);
                    if selected then
                      && HOMING in m2.modes && m2.modes[HOMING].Homing?
                      && ok == HomesFrom(m2.modes[HOMING].status, s)
                      && Value() == HomingDone(m2, ok, s.during, m2.modes[HOMING].status)
                    else !ok && Value() == m2)
    {
      hide AfterSwitchMode, AfterSwitch, Registered, HomesFrom, HomingDone;
      ok := EnableFirst(handlers, sw, display, waits);
      if !ok || !s.supported || HOMING !in modes {
        return;
      }
      ghost var m1 := Value();
      ok := SwitchMode(HOMING, s.supported, s.offWaits, s.sights, s.onWaits);
      HomingSelected(m1, switchingState, s);
      if ok {
        ok := Home(s);
      }
    }

    method EnableFirst(handlers: map<int, Mode>, sw: Word, display: int, waits: seq<Wait>) returns (up: bool)
      requires WellFormed(Value()) && forall id <- handlers :: Fitting(id, handlers[id])
      modifies this, stateHandler
      ensures WellFormed(Value()) && (Value(), up) == Enabled(old(Value()), handlers, sw, display, waits)
    {
      hide AfterSwitch;
      modes := handlers + modes;
      ReadState(sw, display);
      controlWord := {};
      startFaultReset := true;
      ghost var before := Value();
      up := SwitchState(OperationEnable, waits);
      SwitchStateOutcome(before, OperationEnable, waits);
    }

    /** executeHoming and, when it succeeds, the switch to no mode. */
    method Home(s: HomingScript) returns (ok: bool)
      requires HOMING in modes && modes[HOMING].Homing? && !modes[HOMING].execute
      modifies this, stateHandler
      ensures ok == HomesFrom(old(modes[HOMING].status), s)
      ensures Value() == HomingDone(old(Value()), ok, s.during, old(modes[HOMING].status))
    {
      var status := modes[HOMING].status;
      var all := Statuses(status, s.during);
      var homing := new HomingRun.DefaultHomingMode(modes[HOMING].execute, status);
      ghost var flags;
      ok, flags := homing.ExecuteHoming(s.method_, all, s.prepare, s.finish);
      TakeSights(s.during);
      modes := modes[HOMING := Homing(homing.execute, all[|all| - 1])];
      if ok {
        selectedMode := None;
        opMode := NO_MODE;
      }
    }

    method TakeSights(sights: seq<Sight>)
      modifies this, stateHandler
      ensures Value() == AfterSights(old(Value()), sights)
    {
      var i := 0;
      while i < |sights|
        invariant 0 <= i <= |sights|
        invariant AfterSights(Value(), sights[i..]) == AfterSights(old(Value()), sights)
      {
        assert sights[i..][0] == sights[i] && sights[i..][1..] == sights[i + 1..];
        TakePoll(sights[i].poll, sights[i].target);
        var _ := stateHandler.Read(sights[i].sw);
        i := i + 1;
      }
    }

    method ChooseMode(mode: int, sights: seq<Sight>) returns (okay: bool)
      modifies this`opMode, this`modeId, this`selectedMode, this`controlWord, this`startFaultReset, this`targetState
      modifies this`modes, stateHandler
      ensures (Value(), okay) == Decide(UntilShown(Request(old(Value()), mode), mode, sights), mode)
    {
      opMode := mode;
      WaitForMode(mode, sights);
      okay := modeId == mode;
      if okay {
        selectedMode := Some(mode);
      } else {
        opMode := modeId;
      }
    }

    method WaitForMode(mode: int, sights: seq<Sight>)
      modifies this`modeId, this`controlWord, this`startFaultReset, this`targetState, this`modes, stateHandler
      ensures Value() == UntilShown(old(Value()), mode, sights)
    {
      var i := 0;
      while modeId != mode && i < |sights|
        decreases |sights| - i
        invariant 0 <= i <= |sights|
        invariant UntilShown(Value(), mode, sights[i..]) == UntilShown(old(Value()), mode, sights)
      {
        assert sights[i..][1..] == sights[i + 1..];
        TakePoll(sights[i].poll, sights[i].target);
        var _ := stateHandler.Read(sights[i].sw);
        i := i + 1;
      }
    }
  }

  // ----- What the pieces guarantee -----

  lemma HandleWriteWellFormed(m: Motor)
    requires WellFormed(m)
    ensures WellFormed(AfterWrite(m).0)
  {
  }

  /** The poll write owns Halt and, through the handlers, the mode bits: it never changes the
      stored bits 0-3 and 7, and what it sends differs from what it stores at most in bit 7. */
  lemma HandleWriteOwnsPollBits(m: Motor)
    requires WellFormed(m)
    ensures var (m', out) := AfterWrite(m);
            && m'.cw - POLL_BITS == m.cw - POLL_BITS
            && out.sent == (if m.faultReset then m'.cw - {CW_FAULT_RESET} else m'.cw)
            && m'.(cw := m.cw, modes := m.modes, faultReset := m.faultReset) == m
  {
    if m.observed == OperationEnable && Matches(m) {
      WriteNeedsArmed(m.modes[m.displayed], m.cw + {CW_HALT});
    }
  }

  /** A word leaves with Halt clear exactly when the drive is observed enabled, displays the
      mode selected, and that mode is armed. */
  lemma HaltClearExactly(m: Motor)
    requires WellFormed(m)
    ensures CW_HALT !in AfterWrite(m).1.sent <==>
            m.observed == OperationEnable && Matches(m) && Armed(m.modes[m.displayed])
  {
  }

  /** The same handlers, the selected one in another state at most. */
  predicate SameHandlers(m: Motor, modes: map<int, Mode>) {
    && modes.Keys == m.modes.Keys
    && forall id <- m.modes :: Alike(m.modes[id], modes[id]) && (m.selected != Some(id) ==> modes[id] == m.modes[id])
  }

  /** The motors differ in what a waiting call leaves to others and to switchState at most. */
  predicate SameButPolled(m: Motor, n: Motor) {
    && n.(cw := m.cw, targetState := m.targetState, observed := m.observed, faultReset := m.faultReset,
          displayed := m.displayed, modes := m.modes) == m
    && SameHandlers(m, n.modes)
  }

  lemma PolledTwice(m: Motor, n: Motor, o: Motor)
    requires SameButPolled(m, n) && SameButPolled(n, o)
    ensures SameButPolled(m, o)
  {
  }

  lemma PollKeeps(m: Motor, p: Poll)
    ensures SameButPolled(m, AfterPoll(m, p))
  {
  }

  /** switchState reports success only with the target observed and still the target, so a
      call that halted the motor meanwhile is not overruled; and it leaves the selection, the
      mode asked for and every handler but the selected one alone. */
  lemma {:induction false} SwitchStateOutcome(m: Motor, target: InternalState, waits: seq<Wait>)
    ensures var (m', ok) := AfterSwitch(m, target, waits);
            && (ok ==> m'.observed == m'.targetState == target)
            && SameButPolled(m, m')
  {
    SwitchFromOutcome(m.(targetState := target), m.observed, waits);
  }

  lemma {:induction false} SwitchFromOutcome(m: Motor, local: InternalState, waits: seq<Wait>)
    requires local == m.observed
    ensures var (m', last, reached) := SwitchFrom(m, local, waits);
            && (reached ==> m'.observed == m'.targetState == last)
            && SameButPolled(m, m')
    decreases |waits|
  {
    hide SameHandlers;
    if local == m.targetState || waits == [] {
      NothingPolled(m, local);
    } else {
      var (m1, goesOn, next) := Turn(m, local, waits[0]);
      TurnKeeps(m, local, waits[0]);
      if goesOn {
        SwitchFromOutcome(m1, next, waits[1..]);
        PolledTwice(m, m1, SwitchFrom(m1, next, waits[1..]).0);
      }
    }
  }

  lemma NothingPolled(m: Motor, local: InternalState)
    ensures SameButPolled(m, m) && SameButPolled(m, ApplyTransition(m, local).0)
  {
    hide SetTransition;
  }

  lemma TurnKeeps(m: Motor, local: InternalState, w: Wait)
    requires local == m.observed
    ensures var (m', goesOn, next) := Turn(m, local, w); SameButPolled(m, m') && (goesOn ==> next == m'.observed)
  {
    hide SetTransition, FirstOther;
    PollKeeps(ApplyTransition(Retarget(m, w.early), local).0, w.poll);
  }

  predicate Shows(mode: int, m: Motor, sights: seq<Sight>) {
    m.displayed == mode || exists s <- sights :: s.poll.displayed == mode
  }

  lemma {:induction false} ShownInTime(m: Motor, mode: int, sights: seq<Sight>)
    ensures var m' := UntilShown(m, mode, sights);
            (m'.displayed == mode <==> Shows(mode, m, sights)) && SameButPolled(m, m')
    decreases |sights|
  {
    hide Decode, SameHandlers;
    NothingPolled(m, m.observed);
    if m.displayed != mode && sights != [] {
      var m1 := AfterSight(m, sights[0]);
      PollKeeps(m, sights[0].poll);
      SightKeeps(m, sights[0]);
      ShownInTime(m1, mode, sights[1..]);
      PolledTwice(m, m1, UntilShown(m1, mode, sights[1..]));
      assert sights == [sights[0]] + sights[1..];
    }
  }

  lemma SightKeeps(m: Motor, s: Sight)
    ensures SameButPolled(m, AfterSight(m, s))
  {
    hide Decode;
    PollKeeps(m, s.poll);
  }

  lemma {:induction false} SightsKeep(m: Motor, sights: seq<Sight>)
    ensures SameButPolled(m, AfterSights(m, sights))
    decreases |sights|
  {
    hide SameHandlers, AfterSight;
    NothingPolled(m, m.observed);
    if sights != [] {
      SightKeeps(m, sights[0]);
      SightsKeep(AfterSight(m, sights[0]), sights[1..]);
      PolledTwice(m, AfterSight(m, sights[0]), AfterSights(m, sights));
    }
  }

  /** A call of switchMode has one of five outcomes, told apart by what it returns and by
      what is selected and asked for afterwards. In particular true means that the handler is
      selected, its mode was shown before the deadline, and the drive is observed enabled;
      after a missed deadline nothing is selected and the mode displayed then is asked for again.
      Up to the decision the handlers are as start() left them, and after it only the selected
      one is polled and given targets. */
  lemma SwitchModeOutcome(m: Motor, off: InternalState, mode: int, supported: bool,
                          offWaits: seq<Wait>, sights: seq<Sight>, onWaits: seq<Wait>)
    requires WellFormed(m) && mode != NO_MODE
    ensures !supported || mode !in m.modes ==>
              AfterSwitchMode(m, off, mode, supported, offWaits, sights, onWaits) == (m, false)
    ensures supported && mode in m.modes ==>
            var (m', ok) := AfterSwitchMode(m, off, mode, supported, offWaits, sights, onWaits);
            var (m1, already) := Deselect(StartHandler(m, mode), mode);
            var (d, isOff) := BeforeDecision(m1, off, mode, offWaits, sights);
            && SameHandlers(m1.(selected := Some(mode)), m'.modes)
            && (already ==> ok && m' == m1 && m'.selected == Some(mode) && m'.opMode == m.opMode)
            && (!already ==> d.modes == m1.modes)
            && (!already && !isOff ==> !ok && m' == d && m'.selected == None && m'.opMode == m.opMode)
            && (!already && isOff && d.displayed != mode ==> !ok && m'.selected == None && m'.opMode == d.displayed)
            && (!already && isOff && d.displayed == mode ==>
                  && m'.selected == Some(mode) && m'.opMode == mode
                  && (ok ==> m'.observed == m'.targetState == OperationEnable))
  {
    if supported && mode in m.modes {
      var (m1, already) := Deselect(StartHandler(m, mode), mode);
      SelfHandlers(m1.(selected := Some(mode)));
      if !already {
        DropOutcome(m1, off, mode, offWaits, sights, onWaits);
      }
    }
  }

  lemma SelfHandlers(m: Motor)
    ensures SameHandlers(m, m.modes)
  {
  }

  /** With nothing selected no handler is polled. */
  lemma NoneSelected(m: Motor, modes: map<int, Mode>)
    requires SameHandlers(m, modes) && m.selected == None
    ensures modes == m.modes
  {
    forall id: int
      ensures id in modes <==> id in m.modes
      ensures id in modes ==> modes[id] == m.modes[id]
    {
      assert id in modes.Keys <==> id in m.modes.Keys;
      if id in m.modes { assert m.selected != Some(id); }
    }
  }

  /** From the dropped handler up to the decision. */
  lemma DecisionOutcome(m: Motor, off: InternalState, mode: int, offWaits: seq<Wait>, sights: seq<Sight>)
    requires m.selected == None
    ensures var (d, isOff) := BeforeDecision(m, off, mode, offWaits, sights);
            && d.modes == m.modes && d.selected == None && d.opMode == if isOff then mode else m.opMode
  {
    SwitchStateOutcome(m, off, offWaits);
    var (m2, isOff) := AfterSwitch(m, off, offWaits);
    NoneSelected(m, m2.modes);
    ShownInTime(Request(m2, mode), mode, sights);
    NoneSelected(Request(m2, mode), UntilShown(Request(m2, mode), mode, sights).modes);
    hide AfterSwitch, UntilShown, SameHandlers;
  }

  lemma DropOutcome(m: Motor, off: InternalState, mode: int,
                    offWaits: seq<Wait>, sights: seq<Sight>, onWaits: seq<Wait>)
    requires m.selected == None
    ensures var (m', ok) := AfterDrop(m, off, mode, offWaits, sights, onWaits);
            var (d, isOff) := BeforeDecision(m, off, mode, offWaits, sights);
            && d.modes == m.modes
            && SameHandlers(m.(selected := Some(mode)), m'.modes)
            && (!isOff ==> !ok && m' == d && m'.selected == None && m'.opMode == m.opMode)
            && (isOff && d.displayed != mode ==> !ok && m'.selected == None && m'.opMode == d.displayed)
            && (isOff && d.displayed == mode ==>
                  && m'.selected == Some(mode) && m'.opMode == mode
                  && (ok ==> m'.observed == m'.targetState == OperationEnable))
  {
    DecisionOutcome(m, off, mode, offWaits, sights);
    var (d, isOff) := BeforeDecision(m, off, mode, offWaits, sights);
    var m4 := Decide(d, mode).0;
    SwitchStateOutcome(m4, OperationEnable, onWaits);
    var m5 := AfterSwitch(m4, OperationEnable, onWaits).0;
    if m4.selected == None {
      NoneSelected(m4, m5.modes);
    }
    SelfHandlers(m.(selected := Some(mode)));
    hide AfterSwitch, BeforeDecision, Alike;
  }

  lemma SwitchModeWellFormed(m: Motor, off: InternalState, mode: int, supported: bool,
                             offWaits: seq<Wait>, sights: seq<Sight>, onWaits: seq<Wait>)
    requires WellFormed(m) && mode != NO_MODE
    ensures WellFormed(AfterSwitchMode(m, off, mode, supported, offWaits, sights, onWaits).0)
  {
    SwitchModeOutcome(m, off, mode, supported, offWaits, sights, onWaits);
    hide AfterSwitchMode, BeforeDecision, ForwardingOf;
  }

  /** The decision finds the mode displayed just when it was shown before the deadline. */
  lemma DecisionFindsMode(m: Motor, off: InternalState, mode: int, offWaits: seq<Wait>, sights: seq<Sight>)
    ensures var (m2, isOff) := AfterSwitch(m, off, offWaits);
            var (d, _) := BeforeDecision(m, off, mode, offWaits, sights);
            isOff ==> (d.displayed == mode <==> Shows(mode, m2, sights))
  {
    var (m2, isOff) := AfterSwitch(m, off, offWaits);
    ShownInTime(Request(m2, mode), mode, sights);
    hide AfterSwitch, UntilShown;
  }

  /** Whatever its outcome, a mode switch to homing selects no other handler, and leaves homing idle. */
  lemma HomingSelected(m: Motor, off: InternalState, s: HomingScript)
    requires WellFormed(m) && s.supported && HOMING in m.modes
    ensures var m2 := SelectHoming(m, off, s).0;
            && WellFormed(m2) && IdleHoming(m2)
            && (m2.selected == None || m2.selected == Some(HOMING))
  {
    SwitchModeOutcome(m, off, HOMING, s.supported, s.offWaits, s.sights, s.onWaits);
    assert Fitting(HOMING, m.modes[HOMING]);
    hide AfterSwitchMode, BeforeDecision, ForwardingOf;
  }

  predicate IdleHoming(m: Motor) {
    HOMING in m.modes && m.modes[HOMING].Homing? && !m.modes[HOMING].execute
  }

  lemma HomingHalted(m: Motor)
    requires WellFormed(m) && IdleHoming(m) && (m.selected == None || m.selected == Some(HOMING))
    ensures CW_HALT in AfterWrite(m).1.sent
  {
    HaltClearExactly(m);
    hide AfterWrite;
  }

  lemma HomingDoneKeeps(m: Motor, ok: bool, sights: seq<Sight>, status: Word)
    requires WellFormed(m) && IdleHoming(m) && (m.selected == None || m.selected == Some(HOMING))
    ensures var e := HomingDone(m, ok, sights, status);
            WellFormed(e) && IdleHoming(e) && (e.selected == None || e.selected == Some(HOMING))
  {
    SightsKeep(m, sights);
    assert Fitting(HOMING, m.modes[HOMING]);
    hide AfterSights, Statuses, ForwardingOf;
  }

  /** Once handleInit has selected homing, or failed to, the motor stays halted: whatever
      the homing run did, the next word sent has Halt set. */
  lemma InitLeavesHalted(m: Motor, off: InternalState, s: HomingScript, ok: bool, status: Word)
    requires WellFormed(m) && s.supported && HOMING in m.modes
    ensures var (m2, selected) := SelectHoming(m, off, s);
            && WellFormed(m2)
            && (m2.selected == None || m2.selected == Some(HOMING))
            && CW_HALT in AfterWrite(m2).1.sent
            && WellFormed(HomingDone(m2, ok, s.during, status))
            && CW_HALT in AfterWrite(HomingDone(m2, ok, s.during, status)).1.sent
  {
    HomingSelected(m, off, s);
    var m2 := SelectHoming(m, off, s).0;
    hide SelectHoming, AfterWrite, HomingDone;
    HomingDoneKeeps(m2, ok, s.during, status);
    HomingHalted(m2);
    HomingHalted(HomingDone(m2, ok, s.during, status));
  }
}
