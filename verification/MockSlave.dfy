/** The simulated CiA 402 drive
    (canopen_fake_slaves/include/canopen_fake_slaves/cia402_slave.hpp). One call of
    OnWrite is one atomic step; the mode threads only flip status bits of their own. */
module MockSlave {
  import opened Word16
  import opened Wrappers
  import opened State402
  import opened Command402

  /** The states the slave can be in: it never enters the fault states. */
  const SLAVE_STATES: set<InternalState> :=
    {NotReadyToSwitchOn, SwitchOnDisabled, ReadyToSwitchOn, SwitchedOn, OperationEnable, QuickStopActive}

  /** The status bits the mode threads set and clear. */
  const THREAD_BITS: Word :=
    {SW_VOLTAGE_ENABLED, SW_REMOTE, SW_TARGET_REACHED, SW_MODE_SPECIFIC0, SW_MANUFACTURER_SPECIFIC1}

  predicate IsShutdown(cw: Word) {
    CW_FAULT_RESET !in cw && CW_QUICK_STOP in cw && CW_ENABLE_VOLTAGE in cw && CW_SWITCH_ON !in cw
  }

  predicate IsDisableVoltage(cw: Word) {
    CW_FAULT_RESET !in cw && CW_ENABLE_VOLTAGE !in cw
  }

  predicate IsSwitchOn(cw: Word) {
    && CW_FAULT_RESET !in cw && CW_ENABLE_OPERATION !in cw
    && CW_QUICK_STOP in cw && CW_ENABLE_VOLTAGE in cw && CW_SWITCH_ON in cw
  }

  predicate IsEnableOperation(cw: Word) {
    && CW_FAULT_RESET !in cw && CW_ENABLE_OPERATION in cw
    && CW_QUICK_STOP in cw && CW_ENABLE_VOLTAGE in cw && CW_SWITCH_ON in cw
  }

  predicate IsQuickStop(cw: Word) {
    CW_FAULT_RESET !in cw && CW_QUICK_STOP !in cw && CW_ENABLE_VOLTAGE in cw
  }

  predicate IsFaultReset(cw: Word) {
    CW_FAULT_RESET in cw
  }

  /** The state after one control word; the handlers test their conditions one after the
      other, so a later one that holds overrides an earlier one. */
  function NextState(s: InternalState, cw: Word): InternalState {
    match s
    case NotReadyToSwitchOn => SwitchOnDisabled
    case SwitchOnDisabled =>
      if IsShutdown(cw) then ReadyToSwitchOn else s
    case ReadyToSwitchOn =>
      if IsFaultReset(cw) then ReadyToSwitchOn
      else if IsSwitchOn(cw) then SwitchedOn
      else if IsDisableVoltage(cw) then SwitchOnDisabled
      else s
    case SwitchedOn =>
      if IsEnableOperation(cw) then OperationEnable
      else if IsShutdown(cw) then ReadyToSwitchOn
      else if IsDisableVoltage(cw) then SwitchOnDisabled
      else s
    case OperationEnable =>
      if IsQuickStop(cw) then QuickStopActive
      else if IsSwitchOn(cw) then SwitchedOn
      else if IsShutdown(cw) then ReadyToSwitchOn
      else if IsDisableVoltage(cw) then SwitchOnDisabled
      else s
    case QuickStopActive =>
      if IsDisableVoltage(cw) then SwitchOnDisabled
      else if IsEnableOperation(cw) then OperationEnable
      else s
    case _ => s
  }

  /** The status bits of a state, as its set_ function leaves them. */
  function Show(sw: Word, s: InternalState): Word {
    match s
    case SwitchOnDisabled =>
      (sw - {SW_READY_TO_SWITCH_ON, SW_SWITCHED_ON, SW_OPERATION_ENABLED, SW_FAULT}) + {SW_SWITCH_ON_DISABLED}
    case ReadyToSwitchOn =>
      (sw - {SW_SWITCHED_ON, SW_OPERATION_ENABLED, SW_FAULT, SW_SWITCH_ON_DISABLED}) +
      {SW_READY_TO_SWITCH_ON, SW_QUICK_STOP}
    case SwitchedOn =>
      (sw - {SW_OPERATION_ENABLED, SW_FAULT, SW_SWITCH_ON_DISABLED}) +
      {SW_READY_TO_SWITCH_ON, SW_SWITCHED_ON, SW_QUICK_STOP}
    case OperationEnable =>
      (sw - {SW_FAULT, SW_SWITCH_ON_DISABLED}) +
      {SW_READY_TO_SWITCH_ON, SW_SWITCHED_ON, SW_OPERATION_ENABLED, SW_QUICK_STOP}
    case QuickStopActive =>
      (sw - {SW_FAULT, SW_QUICK_STOP, SW_SWITCH_ON_DISABLED}) +
      {SW_READY_TO_SWITCH_ON, SW_SWITCHED_ON, SW_OPERATION_ENABLED}
    case _ => sw
  }

  /** The slave's state as a value, and what can happen to it. */
  datatype Slave = Slave(state: InternalState, sw: Word, mode: int, oldMode: int)

  datatype SlaveEvent = Write(cw: Word) | SelectMode(m: int) | Thread(set_: Word, clear: Word)

  predicate Possible(e: SlaveEvent) {
    e.Thread? ==> e.set_ <= THREAD_BITS && e.clear <= THREAD_BITS
  }

  function OnEvent(s: Slave, e: SlaveEvent): Slave {
    match e
    case Write(cw) =>
      var next := NextState(s.state, cw);
      var sw := if next == s.state then s.sw else Show(s.sw, next);
      if s.state == OperationEnable && s.oldMode != s.mode then
        Slave(next, sw - {SW_MODE_SPECIFIC0, SW_TARGET_REACHED}, s.mode, s.mode)
      else
        Slave(next, sw, s.mode, s.oldMode)
    case SelectMode(m) => if 0 <= m <= 10 then s.(mode := m) else s
    case Thread(set_, clear) => s.(sw := (s.sw - clear) + set_)
  }

  /** The mode thread that is started for a mode of operation, if there is one. */
  function ThreadOf(mode: int): Option<int> {
    if mode in {1, 3, 6, 7, 8} then Some(mode) else None
  }

  predicate Sound(s: Slave) {
    s.state in SLAVE_STATES && Decode(s.sw) == s.state
  }

  class CIA402MockSlave {
    var state: InternalState
    var statusWord: Word
    var controlWord: Word
    var operationMode: int
    var oldOperationMode: int
    var modeDisplay: int
    var isRelative: bool
    var isHalt: bool
    var isNewSetPoint: bool
    var modeThread: Option<int>
    /** Object 0x6041, and the status words transmitted from it, oldest first. */
    var statusObject: Word
    var published: seq<Word>

    function Value(): Slave
      reads this
    {
      Slave(state, statusWord, operationMode, oldOperationMode)
    }

    /** The state and the status word agree, and the state is one the slave knows. */
    ghost predicate Valid()
      reads this
    {
      Sound(Value())
    }

    /** What a transmission shows: the state, also when it is not this class that triggers it. */
    ghost predicate Showing()
      reads this
    {
      Decode(statusObject) == state
    }

    constructor ()
      ensures Valid() && Showing() && state == NotReadyToSwitchOn && published == [] && modeThread == None
    {
      modeThread, statusObject := None, {};
      state := NotReadyToSwitchOn;
      statusWord := {};
      controlWord := {};
      operationMode, oldOperationMode, modeDisplay := 0, 0, 0;
      isRelative, isHalt, isNewSetPoint := false, false, false;
      published := [];
    }

    /** The flags the mode threads read follow the control word. */
    predicate Flags(w: Word)
      reads this
    {
      isRelative == (CW_MODE2 in w) && isHalt == (CW_HALT in w) && isNewSetPoint == (CW_MODE0 in w)
    }

    method SetStatusBit(b: bit)
      modifies this`statusWord
      ensures statusWord == old(statusWord) + {b}
    {
      statusWord := statusWord + {b};
    }

    method ClearStatusBit(b: bit)
      modifies this`statusWord
      ensures statusWord == old(statusWord) - {b}
    {
      statusWord := statusWord - {b};
    }

    method Publish()
      modifies this`published, this`statusObject
      ensures published == old(published) + [statusWord] && statusObject == statusWord
    {
      statusObject := statusWord;
      published := published + [statusObject];
    }

    method SetSwitchOnDisabled()
      modifies this`state, this`statusWord
      ensures state == SwitchOnDisabled && statusWord == Show(old(statusWord), SwitchOnDisabled)
    {
      state := SwitchOnDisabled;
      ClearStatusBit(SW_READY_TO_SWITCH_ON);
      ClearStatusBit(SW_SWITCHED_ON);
      ClearStatusBit(SW_OPERATION_ENABLED);
      ClearStatusBit(SW_FAULT);
      SetStatusBit(SW_SWITCH_ON_DISABLED);
    }

    method SetReadyToSwitchOn()
      modifies this`state, this`statusWord
      ensures state == ReadyToSwitchOn && statusWord == Show(old(statusWord), ReadyToSwitchOn)
    {
      state := ReadyToSwitchOn;
      SetStatusBit(SW_READY_TO_SWITCH_ON);
      ClearStatusBit(SW_SWITCHED_ON);
      ClearStatusBit(SW_OPERATION_ENABLED);
      ClearStatusBit(SW_FAULT);
      SetStatusBit(SW_QUICK_STOP);
      ClearStatusBit(SW_SWITCH_ON_DISABLED);
    }

    method SetSwitchedOn()
      modifies this`state, this`statusWord
      ensures state == SwitchedOn && statusWord == Show(old(statusWord), SwitchedOn)
    {
      state := SwitchedOn;
      SetStatusBit(SW_READY_TO_SWITCH_ON);
      SetStatusBit(SW_SWITCHED_ON);
      ClearStatusBit(SW_OPERATION_ENABLED);
      ClearStatusBit(SW_FAULT);
      SetStatusBit(SW_QUICK_STOP);
      ClearStatusBit(SW_SWITCH_ON_DISABLED);
    }

    method SetOperationEnabled()
      modifies this`state, this`statusWord
      ensures state == OperationEnable && statusWord == Show(old(statusWord), OperationEnable)
    {
      state := OperationEnable;
      SetStatusBit(SW_READY_TO_SWITCH_ON);
      SetStatusBit(SW_SWITCHED_ON);
      SetStatusBit(SW_OPERATION_ENABLED);
      ClearStatusBit(SW_FAULT);
      SetStatusBit(SW_QUICK_STOP);
      ClearStatusBit(SW_SWITCH_ON_DISABLED);
    }

    method SetQuickStop()
      modifies this`state, this`statusWord
      ensures state == QuickStopActive && statusWord == Show(old(statusWord), QuickStopActive)
    {
      state := QuickStopActive;
      SetStatusBit(SW_READY_TO_SWITCH_ON);
      SetStatusBit(SW_SWITCHED_ON);
      SetStatusBit(SW_OPERATION_ENABLED);
      ClearStatusBit(SW_FAULT);
      ClearStatusBit(SW_QUICK_STOP);
      ClearStatusBit(SW_SWITCH_ON_DISABLED);
    }

    method LeaveNotReady()
      requires Valid() && state == NotReadyToSwitchOn
      modifies this`state, this`statusWord
      ensures Valid() && state == SwitchOnDisabled && statusWord == Show(old(statusWord), SwitchOnDisabled)
    {
      SetSwitchOnDisabled();
    }

    method OnSwitchOnDisabled()
      requires Valid() && state == SwitchOnDisabled
      modifies this`state, this`statusWord
      ensures Valid() && state == NextState(SwitchOnDisabled, controlWord)
      ensures statusWord == if state == SwitchOnDisabled then old(statusWord) else Show(old(statusWord), state)
    {
      if IsShutdown(controlWord) {
        SetReadyToSwitchOn();
      }
    }

    method OnReadyToSwitchOn()
      requires Valid() && state == ReadyToSwitchOn
      modifies this`state, this`statusWord
      ensures Valid() && state == NextState(ReadyToSwitchOn, controlWord)
      ensures statusWord == if state == ReadyToSwitchOn then old(statusWord) else Show(old(statusWord), state)
    {
      if IsDisableVoltage(controlWord) {
        SetSwitchOnDisabled();
      }
      if IsSwitchOn(controlWord) {
        SetSwitchedOn();
      }
      if IsFaultReset(controlWord) {
        assert Show(statusWord, ReadyToSwitchOn) == statusWord;
        SetReadyToSwitchOn();
      }
    }

    method OnSwitchedOn()
      requires Valid() && state == SwitchedOn
      modifies this`state, this`statusWord
      ensures Valid() && state == NextState(SwitchedOn, controlWord)
      ensures statusWord == if state == SwitchedOn then old(statusWord) else Show(old(statusWord), state)
    {
      if IsDisableVoltage(controlWord) {
        SetSwitchOnDisabled();
      }
      if IsShutdown(controlWord) {
        SetReadyToSwitchOn();
      }
      if IsEnableOperation(controlWord) {
        SetOperationEnabled();
      }
    }

    method LeaveOperationEnabled()
      requires Valid() && state == OperationEnable
      modifies this`state, this`statusWord
      ensures Valid() && state == NextState(OperationEnable, controlWord)
      ensures statusWord == if state == OperationEnable then old(statusWord) else Show(old(statusWord), state)
    {
      if IsDisableVoltage(controlWord) {
        SetSwitchOnDisabled();
      }
      if IsShutdown(controlWord) {
        SetReadyToSwitchOn();
      }
      if IsSwitchOn(controlWord) {
        SetSwitchedOn();
      }
      if IsQuickStop(controlWord) {
        SetQuickStop();
      }
    }

    /** A new mode of operation: the acknowledge bits are dropped and the mode's thread is
        replaced. */
    method RestartMode()
      requires Valid()
      modifies this`statusWord, this`published, this`statusObject, this`oldOperationMode, this`modeThread
      ensures Valid() && oldOperationMode == operationMode && modeThread == ThreadOf(operationMode)
      ensures statusWord == old(statusWord) - {SW_MODE_SPECIFIC0, SW_TARGET_REACHED}
      ensures published == old(published) + [statusWord] && statusObject == statusWord
    {
      ClearStatusBit(SW_MODE_SPECIFIC0);
      ClearStatusBit(SW_TARGET_REACHED);
      Publish();
      modeThread := None;
      oldOperationMode := operationMode;
      modeThread := ThreadOf(operationMode);
    }

    method OnOperationEnabled()
      requires Valid() && state == OperationEnable
      modifies this
      ensures Valid() && Value() == OnEvent(old(Value()), Write(controlWord)) && controlWord == old(controlWord)
      ensures Flags(controlWord)
      ensures modeDisplay == old(modeDisplay)
      ensures if old(oldOperationMode) == operationMode then
                unchanged(`published, `statusObject, `modeThread)
              else
                && published == old(published) + [statusWord] && statusObject == statusWord
                && modeThread == ThreadOf(operationMode)
    {
      LeaveOperationEnabled();
      isRelative := CW_MODE2 in controlWord;
      isHalt := CW_HALT in controlWord;
      isNewSetPoint := CW_MODE0 in controlWord;
      if oldOperationMode != operationMode {
        RestartMode();
      }
    }

    method OnQuickStopActive()
      requires Valid() && state == QuickStopActive
      modifies this`state, this`statusWord
      ensures Valid() && state == NextState(QuickStopActive, controlWord)
      ensures statusWord == if state == QuickStopActive then old(statusWord) else Show(old(statusWord), state)
    {
      if IsEnableOperation(controlWord) {
        SetOperationEnabled();
      }
      if IsDisableVoltage(controlWord) {
        SetSwitchOnDisabled();
      }
    }

    /** set_new_status_word_and_state: one step of the state machine for the control word. */
    method StepState()
      requires Valid()
      modifies this
      ensures Valid() && Value() == OnEvent(old(Value()), Write(controlWord)) && controlWord == old(controlWord)
      ensures if old(state) == OperationEnable then Flags(controlWord)
              else unchanged(`isRelative, `isHalt, `isNewSetPoint)
      ensures if old(state) == OperationEnable && old(oldOperationMode) != operationMode then
                published == old(published) + [statusWord] && modeThread == ThreadOf(operationMode)
              else unchanged(`published, `modeThread)
      ensures modeDisplay == old(modeDisplay)
    {
      hide Show, Decode, ThreadOf;
      match state {
        case NotReadyToSwitchOn =>
          LeaveNotReady();
        case SwitchOnDisabled =>
          OnSwitchOnDisabled();
        case ReadyToSwitchOn =>
          OnReadyToSwitchOn();
        case SwitchedOn =>
          OnSwitchedOn();
        case OperationEnable =>
          OnOperationEnabled();
        case QuickStopActive =>
          OnQuickStopActive();
        case _ =>
      }
    }

    /** A control word arrives: one step of the state machine, and every status word that
        leaves the slave shows a state the machine was in. */
    method OnWriteControlWord(w: Word)
      requires Valid()
      modifies this
      ensures Valid() && Showing() && Value() == OnEvent(old(Value()), Write(w)) && controlWord == w
      ensures if old(state) == OperationEnable then Flags(w) else unchanged(`isRelative, `isHalt, `isNewSetPoint)
      ensures modeThread == if old(state) == OperationEnable && old(oldOperationMode) != operationMode
                            then ThreadOf(operationMode) else old(modeThread)
      ensures modeDisplay == old(modeDisplay)
      ensures old(published) < published && published[|published| - 1] == statusWord
      ensures forall i :: |old(published)| <= i < |published| ==> Decode(published[i]) == state
    {
      hide Show, ThreadOf, NextState;
      controlWord := w;
      StepState();
      Publish();
    }

    /** A mode of operation arrives; the display object echoes even an unknown one, and the
        status object is transmitted with it. */
    method OnWriteMode(m: int)
      requires Valid() && Showing()
      modifies this`operationMode, this`modeDisplay, this`published
      ensures Valid() && Showing() && modeDisplay == m
      ensures published == old(published) + [statusObject]
      ensures Value() == OnEvent(old(Value()), SelectMode(m))
    {
      if 0 <= m <= 10 {
        operationMode := m;
      }
      modeDisplay := m;
      published := published + [statusObject];
    }

    /** Bits a mode thread sets and clears, and then transmits. */
    method ThreadStatus(set_: Word, clear: Word)
      requires Valid() && set_ <= THREAD_BITS && clear <= THREAD_BITS
      modifies this`statusWord, this`published, this`statusObject
      ensures Valid() && Showing() && Value() == OnEvent(old(Value()), Thread(set_, clear))
      ensures published == old(published) + [statusWord]
    {
      statusWord := (statusWord - clear) + set_;
      Publish();
    }
  }

  function OnEvents(s: Slave, events: seq<SlaveEvent>): Slave
    decreases |events|
  {
    if events == [] then s else OnEvents(OnEvent(s, events[0]), events[1..])
  }

  lemma EventKeepsSound(s: Slave, e: SlaveEvent)
    requires Sound(s) && Possible(e)
    ensures Sound(OnEvent(s, e))
  {
  }

  /** After any sequence of control words and mode-thread updates from power-up, the driver
      that decodes the status word finds exactly the slave's state: never Unknown, never a fault. */
  lemma {:induction false} StatusWordTracksState(events: seq<SlaveEvent>, start: Slave)
    requires Sound(start) && forall e <- events :: Possible(e)
    ensures var end := OnEvents(start, events);
            && Decode(end.sw) == end.state
            && end.state !in {Start, Fault, FaultReactionActive}
    decreases |events|
  {
    if events != [] {
      EventKeepsSound(start, events[0]);
      StatusWordTracksState(events[1..], OnEvent(start, events[0]));
    }
  }

  /** What the slave obeys, in the terms of the standard: the command bits are 0 to 3 and 7, and
      each command works in the states that the standard lists for it. */
  lemma SlaveObeysExactly(s: InternalState, cw: Word, to: InternalState)
    requires s in SLAVE_STATES && to != s
    ensures NextState(s, cw) == to <==>
            || (s == NotReadyToSwitchOn && to == SwitchOnDisabled)
            || (&& to == SwitchOnDisabled && s in {ReadyToSwitchOn, SwitchedOn, OperationEnable, QuickStopActive}
                && 1 !in cw && 7 !in cw)
            || (&& to == ReadyToSwitchOn && s in {SwitchOnDisabled, SwitchedOn, OperationEnable}
                && 0 !in cw && 1 in cw && 2 in cw && 7 !in cw)
            || (&& to == SwitchedOn && s in {ReadyToSwitchOn, OperationEnable}
                && 0 in cw && 1 in cw && 2 in cw && 3 !in cw && 7 !in cw)
            || (&& to == OperationEnable && s in {SwitchedOn, QuickStopActive}
                && 0 in cw && 1 in cw && 2 in cw && 3 in cw && 7 !in cw)
            || (to == QuickStopActive && s == OperationEnable && 1 in cw && 2 !in cw && 7 !in cw)
  {
  }

  /** A control word leaves the status bits that show no state, except that the first one in
      Operation_Enable after a new mode clears bits 10 and 12; only modes 0 to 10 are taken over,
      and of these five have a thread. */
  lemma EventTouches(s: Slave, cw: Word, m: int)
    requires s.state in SLAVE_STATES
    ensures var t := OnEvent(s, Write(cw));
            var restarts := s.state == OperationEnable && s.oldMode != s.mode;
            && t.state == NextState(s.state, cw) && t.mode == s.mode
            && t.oldMode == (if restarts then s.mode else s.oldMode)
            && (forall b: bit :: b in {4, 7, 8, 9, 11, 13, 14, 15} ==> (b in t.sw <==> b in s.sw))
            && forall b: bit :: b in {10, 12} ==> (b in t.sw <==> b in s.sw && !restarts)
    ensures OnEvent(s, SelectMode(m)) == s.(mode := if 0 <= m <= 10 then m else s.mode)
    ensures ThreadOf(m) == if m == 1 || m == 3 || m == 6 || m == 7 || m == 8 then Some(m) else None
  {
  }

  /** The table is complete for the drive it is meant for: wherever some word takes the slave from
      one state to another there is an entry, and there are five more, for the quick stop of the
      states before Operation_Enable and for the start and fault states. */
  lemma TableIsComplete(from: InternalState, to: InternalState)
    requires from != to
    ensures Lookup(from, to).Some? <==>
            || (from in SLAVE_STATES && exists cw: Word :: NextState(from, cw) == to)
            || (to == QuickStopActive && (from == ReadyToSwitchOn || from == SwitchedOn))
            || (from, to) in {(Start, NotReadyToSwitchOn), (FaultReactionActive, Fault), (Fault, SwitchOnDisabled)}
  {
    if Lookup(from, to).Some? {
      TableAgreesWithSlave({}, from, to);
    }
    if from in SLAVE_STATES && exists cw: Word :: NextState(from, cw) == to {
      var cw: Word :| NextState(from, cw) == to;
    }
  }

  /** The table against the drive it is meant for: the word of an entry moves the slave to
      the entry's target exactly when the slave implements the entry. It has no start and
      fault states, and it knows quick stop in Operation_Enable only. */
  lemma TableAgreesWithSlave(cw: Word, from: InternalState, to: InternalState)
    requires Lookup(from, to).Some?
    ensures NextState(from, Lookup(from, to).value.Apply(cw)) == to <==>
            from in SLAVE_STATES && (to == QuickStopActive ==> from == OperationEnable)
  {
  }

  /** setTransition against the slave: it succeeds just when some word takes the slave to the hop,
      or for the quick stop from the two states before Operation_Enable, which the slave ignores;
      otherwise the word it leaves takes the slave there, and the hop is reported if asked for. */
  lemma TransitionMovesSlave(cw: Word, from: InternalState, to: InternalState, wantNext: bool)
    requires from in SLAVE_STATES && from != to
    ensures var r := SetTransition(cw, from, to, wantNext);
            var hop := if wantNext && to == OperationEnable then NextStateForEnabling(from) else to;
            var ignored := to == QuickStopActive && (from == ReadyToSwitchOn || from == SwitchedOn);
            && r.next == (if wantNext then Some(hop) else None)
            && (r.ok <==> ignored || exists w: Word :: NextState(from, w) == hop)
            && (r.ok && !ignored ==> NextState(from, r.cw) == hop)
            && (!r.ok ==> r.cw == cw)
  {
    var hop := if wantNext && to == OperationEnable then NextStateForEnabling(from) else to;
    assert hop != from;
    TableIsComplete(from, hop);
    if Lookup(from, hop).Some? {
      TableAgreesWithSlave(cw, from, hop);
    }
    hide NextState, Lookup;
  }

  /** Sending the word of an implemented entry again changes nothing more, except behind the
      automatic transition, where the unchanged word must not already be a shutdown command. */
  lemma RepeatedWordIsStable(cw: Word, from: InternalState, to: InternalState)
    requires Lookup(from, to).Some? && from in SLAVE_STATES && (to == QuickStopActive ==> from == OperationEnable)
    ensures NextState(to, Lookup(from, to).value.Apply(cw)) == to <==>
            (from == NotReadyToSwitchOn ==> !IsShutdown(cw))
  {
  }

  // ----- Between the writes of the bits -----

  /** The status words on the way to a state, as its set_ function writes the bits one by one. */
  function Passed(sw: Word, s: InternalState): seq<Word> {
    var r, w, o := SW_READY_TO_SWITCH_ON, SW_SWITCHED_ON, SW_OPERATION_ENABLED;
    var f, q, d := SW_FAULT, SW_QUICK_STOP, SW_SWITCH_ON_DISABLED;
    match s
    case SwitchOnDisabled =>
      [sw, sw - {r}, sw - {r, w}, sw - {r, w, o}, sw - {r, w, o, f}, sw - {r, w, o, f} + {d}]
    case ReadyToSwitchOn =>
      [sw, sw + {r}, sw + {r} - {w}, sw + {r} - {w, o}, sw + {r} - {w, o, f}, sw + {r} - {w, o, f} + {q},
       sw + {r} - {w, o, f} + {q} - {d}]
    case SwitchedOn =>
      [sw, sw + {r}, sw + {r, w}, sw + {r, w} - {o}, sw + {r, w} - {o, f}, sw + {r, w} - {o, f} + {q},
       sw + {r, w} - {o, f} + {q} - {d}]
    case OperationEnable =>
      [sw, sw + {r}, sw + {r, w}, sw + {r, w, o}, sw + {r, w, o} - {f}, sw + {r, w, o} - {f} + {q},
       sw + {r, w, o} - {f} + {q} - {d}]
    case QuickStopActive =>
      [sw, sw + {r}, sw + {r, w}, sw + {r, w, o}, sw + {r, w, o} - {f}, sw + {r, w, o} - {f, q},
       sw + {r, w, o} - {f, q, d}]
    case _ => [sw]
  }

  lemma PassedEndsInShow(sw: Word, s: InternalState)
    ensures Passed(sw, s)[|Passed(sw, s)| - 1] == Show(sw, s)
  {
  }

  /** A status word transmitted in the middle of a transition shows the old or the new state
      for all of these transitions, and for no other: to Switch_On_Disabled from power-up only,
      and to Ready_To_Switch_On from Switched_On only. Elsewhere it can show a third state, or none. */
  lemma MidwayStatusExactly(from: InternalState, sw: Word, cw: Word)
    requires from in SLAVE_STATES && Decode(sw) == from && NextState(from, cw) != from
    ensures var to := NextState(from, cw);
            (forall w <- Passed(sw, to) :: Decode(w) == from || Decode(w) == to) <==>
            && (to == SwitchOnDisabled ==> from == NotReadyToSwitchOn)
            && (to == ReadyToSwitchOn ==> from == SwitchedOn)
  {
    var to := NextState(from, cw);
    var p := Passed(sw, to);
    if to == SwitchOnDisabled || to == ReadyToSwitchOn {
      assert p[1] in p && p[2] in p;
    }
  }
}
