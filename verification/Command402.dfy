/** The control word and the table of commanded transitions
    (canopen_402_driver/src/command.cpp, canopen_402_driver/include/canopen_402_driver/command.hpp). */
module Command402 {
  import opened State402
  import opened Word16
  import opened Wrappers

  const CW_SWITCH_ON: bit := 0
  const CW_ENABLE_VOLTAGE: bit := 1
  const CW_QUICK_STOP: bit := 2
  const CW_ENABLE_OPERATION: bit := 3
  const CW_MODE0: bit := 4
  const CW_MODE1: bit := 5
  const CW_MODE2: bit := 6
  const CW_FAULT_RESET: bit := 7
  const CW_HALT: bit := 8
  const CW_MODE3: bit := 9

  /** The bits a transition may change, and the bits a mode handler may change. */
  const STATE_BITS: Word := {CW_SWITCH_ON, CW_ENABLE_VOLTAGE, CW_QUICK_STOP, CW_ENABLE_OPERATION, CW_FAULT_RESET}
  const MODE_BITS: Word := {CW_MODE0, CW_MODE1, CW_MODE2, CW_MODE3}

  /** The bits of the stored word that the poll thread may rewrite before it sends. */
  const POLL_BITS: Word := MODE_BITS + {CW_HALT}

  datatype Op = Op(toSet: Word, toReset: Word) {
    function Apply(val: Word): Word {
      (val - toReset) + toSet
    }
  }

  const DISABLE_VOLTAGE := Op({}, {CW_FAULT_RESET, CW_ENABLE_VOLTAGE})
  const AUTOMATIC := Op({}, {})
  const SHUTDOWN := Op({CW_QUICK_STOP, CW_ENABLE_VOLTAGE}, {CW_FAULT_RESET, CW_SWITCH_ON})
  const SWITCH_ON := Op({CW_QUICK_STOP, CW_ENABLE_VOLTAGE, CW_SWITCH_ON}, {CW_FAULT_RESET, CW_ENABLE_OPERATION})
  const ENABLE_OPERATION :=
    Op({CW_QUICK_STOP, CW_ENABLE_VOLTAGE, CW_SWITCH_ON, CW_ENABLE_OPERATION}, {CW_FAULT_RESET})
  const QUICK_STOP := Op({CW_ENABLE_VOLTAGE}, {CW_FAULT_RESET, CW_QUICK_STOP})
  const RESET_FAULT := Op({CW_FAULT_RESET}, {})

  /** The table, which is built once before main and never changes, as a function of the two states. */
  function Lookup(from: InternalState, to: InternalState): Option<Op> {
    match (from, to)
    case (Start, NotReadyToSwitchOn) => Some(AUTOMATIC)
    case (NotReadyToSwitchOn, SwitchOnDisabled) => Some(AUTOMATIC)
    case (FaultReactionActive, Fault) => Some(AUTOMATIC)
    case (ReadyToSwitchOn, SwitchOnDisabled) => Some(DISABLE_VOLTAGE)
    case (OperationEnable, SwitchOnDisabled) => Some(DISABLE_VOLTAGE)
    case (SwitchedOn, SwitchOnDisabled) => Some(DISABLE_VOLTAGE)
    case (QuickStopActive, SwitchOnDisabled) => Some(DISABLE_VOLTAGE)
    case (SwitchOnDisabled, ReadyToSwitchOn) => Some(SHUTDOWN)
    case (SwitchedOn, ReadyToSwitchOn) => Some(SHUTDOWN)
    case (OperationEnable, ReadyToSwitchOn) => Some(SHUTDOWN)
    case (ReadyToSwitchOn, SwitchedOn) => Some(SWITCH_ON)
    case (OperationEnable, SwitchedOn) => Some(SWITCH_ON)
    case (SwitchedOn, OperationEnable) => Some(ENABLE_OPERATION)
    case (QuickStopActive, OperationEnable) => Some(ENABLE_OPERATION)
    case (ReadyToSwitchOn, QuickStopActive) => Some(QUICK_STOP)
    case (SwitchedOn, QuickStopActive) => Some(QUICK_STOP)
    case (OperationEnable, QuickStopActive) => Some(QUICK_STOP)
    case (Fault, SwitchOnDisabled) => Some(RESET_FAULT)
    case _ => None
  }

  function NextStateForEnabling(state: InternalState): InternalState {
    match state
    case Start => NotReadyToSwitchOn
    case Fault => SwitchOnDisabled
    case NotReadyToSwitchOn => SwitchOnDisabled
    case SwitchOnDisabled => ReadyToSwitchOn
    case ReadyToSwitchOn => SwitchedOn
    case SwitchedOn => OperationEnable
    case QuickStopActive => OperationEnable
    case OperationEnable => OperationEnable
    case FaultReactionActive => Fault
  }

  /** The outcome of setTransition: success, the word afterwards, and the hop reported
      (None when the caller's variable is left alone). */
  datatype Transition = Transition(ok: bool, cw: Word, next: Option<InternalState>)

  function SetTransition(cw: Word, from: InternalState, to: InternalState, wantNext: bool): Transition {
    if from == to then
      Transition(true, cw, None)
    else
      var hop := if wantNext && to == OperationEnable then NextStateForEnabling(from) else to;
      var next := if wantNext then Some(hop) else None;
      match Lookup(from, hop)
      case Some(op) => Transition(true, op.Apply(cw), next)
      case None => Transition(false, cw, next)
  }

  /** Hops that remain until Operation_Enable. */
  function Rank(state: InternalState): nat {
    match state
    case OperationEnable => 0
    case SwitchedOn => 1
    case QuickStopActive => 1
    case ReadyToSwitchOn => 2
    case SwitchOnDisabled => 3
    case NotReadyToSwitchOn => 4
    case Fault => 4
    case Start => 5
    case FaultReactionActive => 5
  }

  /** The states the enabling switcher walks through from `state`. */
  function EnablingPath(state: InternalState): seq<InternalState>
    decreases Rank(state)
  {
    if state == OperationEnable then [state] else [state] + EnablingPath(NextStateForEnabling(state))
  }

  /** Enabling terminates: the path has exactly Rank(state) hops, ends in Operation_Enable,
      and no hop on it lacks a table entry, so setTransition towards Operation_Enable succeeds
      from every state and reports the next state of the path. */
  lemma {:induction false} EnablingPathEnds(state: InternalState, cw: Word)
    ensures var p := EnablingPath(state);
            && |p| == Rank(state) + 1
            && p[|p| - 1] == OperationEnable
            && forall i :: 0 <= i < |p| - 1 ==>
                 Rank(p[i + 1]) + 1 == Rank(p[i]) &&
                 SetTransition(cw, p[i], OperationEnable, true).ok &&
                 SetTransition(cw, p[i], OperationEnable, true).next == Some(p[i + 1])
    decreases Rank(state)
  {
    if state != OperationEnable {
      var rest := EnablingPath(NextStateForEnabling(state));
      EnablingPathEnds(NextStateForEnabling(state), cw);
      var p := EnablingPath(state);
      assert p == [state] + rest;
      forall i | 0 <= i < |p| - 1
        ensures Rank(p[i + 1]) + 1 == Rank(p[i])
        ensures SetTransition(cw, p[i], OperationEnable, true).ok
        ensures SetTransition(cw, p[i], OperationEnable, true).next == Some(p[i + 1])
      {
        if i == 0 {
          assert rest[0] == NextStateForEnabling(state);
        } else {
          assert p[i] == rest[i - 1] && p[i + 1] == rest[i];
        }
      }
    }
  }

  /** The word of each entry, bit by bit, by where it leads: the others are left as they are. */
  lemma CommandWords(cw: Word, from: InternalState, to: InternalState)
    requires Lookup(from, to).Some?
    ensures var w := Lookup(from, to).value.Apply(cw);
            match to
            case ReadyToSwitchOn => w == cw - {0, 7} + {1, 2}
            case SwitchedOn => w == cw - {3, 7} + {0, 1, 2}
            case OperationEnable => w == cw - {7} + {0, 1, 2, 3}
            case QuickStopActive => w == cw - {2, 7} + {1}
            case SwitchOnDisabled =>
              w == if from == Fault then cw + {7} else if from == NotReadyToSwitchOn then cw else cw - {1, 7}
            case _ => w == cw
  {
  }

  /** A way through the table, entry by entry. */
  predicate IsRoute(p: seq<InternalState>) {
    p != [] && forall i :: 0 <= i < |p| - 1 ==> Lookup(p[i], p[i + 1]).Some?
  }

  /** The enabling path is a shortest way: the table leads to Operation_Enable in no fewer hops. */
  lemma {:induction false} PathIsShortest(p: seq<InternalState>)
    requires IsRoute(p) && p[|p| - 1] == OperationEnable
    ensures |EnablingPath(p[0])| <= |p|
  {
    EnablingPathEnds(p[0], {});
    if |p| > 1 {
      assert Lookup(p[0], p[1]).Some?;
      forall i | 0 <= i < |p[1..]| - 1
        ensures Lookup(p[1..][i], p[1..][i + 1]).Some?
      {
        assert p[1..][i] == p[i + 1] && Lookup(p[i + 1], p[i + 2]).Some?;
      }
      PathIsShortest(p[1..]);
      EnablingPathEnds(p[1], {});
      assert Rank(p[0]) <= Rank(p[1]) + 1;
    }
    hide SetTransition;
  }

  /** Whatever the two states, a transition changes bits 0-3 and 7 only; a refused one changes nothing. */
  lemma TransitionOwnsStateBits(cw: Word, from: InternalState, to: InternalState, wantNext: bool)
    ensures SetTransition(cw, from, to, wantNext).cw - STATE_BITS == cw - STATE_BITS
    ensures !SetTransition(cw, from, to, wantNext).ok ==> SetTransition(cw, from, to, wantNext).cw == cw
  {
    var hop := if wantNext && to == OperationEnable then NextStateForEnabling(from) else to;
    if from != to && Lookup(from, hop).Some? {
      var op := Lookup(from, hop).value;
      assert op.toSet <= STATE_BITS && op.toReset <= STATE_BITS;
    }
  }
}
