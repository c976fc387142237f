/** The fault-reset edge: what the drive sees of bit 7 after handleRecover or handleInit,
    while it stays in Fault (canopen_402_driver/src/motor.cpp). */
module FaultReset {
  import opened Word16
  import opened State402
  import opened Command402
  import opened Modes
  import opened MotorSteps

  /** What runs against each other: the poll thread, the thread of the request, which restarts
      the selected handler, enters switchState and sets its transition, at any time and again,
      and the other calls. */
  datatype Step =
    | PollWrite
    | Restart
    | AssignTarget(target: InternalState)   // a switchState, of the request or of another call
    | SetTransition                         // one turn of its loop
    | StatusRead(sw: Word)
    | DisplayRead(sw: Word, display: int)
    | Target(val: Double)
    | Halt

  predicate StaysInFault(a: Step) {
    a.StatusRead? ==> Decode(a.sw) == Fault
  }

  function Next(m: Motor, a: Step): Motor
    requires WellFormed(m)
  {
    match a
    case PollWrite => AfterWrite(m).0
    case Restart => if m.selected.Some? then StartHandler(m, m.selected.value) else m
    case AssignTarget(target) => m.(targetState := target)
    case SetTransition => ApplyTransition(m, Fault).0
    case StatusRead(sw) => ReadStatus(m, sw)
    case DisplayRead(sw, display) => ReadDisplay(m, sw, display)
    case Target(val) => AfterTarget(m, val)
    case Halt => AfterHalt(m).0
  }

  /** Bit 7 of the words sent, in order. */
  ghost function Sent(m: Motor, steps: seq<Step>): seq<bool>
    requires Waiting(m) && forall a <- steps :: StaysInFault(a)
    decreases |steps|
  {
    if steps == [] then [] else
    StepKeeps(m, steps[0]);
    var rest := Sent(Next(m, steps[0]), steps[1..]);
    if steps[0].PollWrite? then [CW_FAULT_RESET in AfterWrite(m).1.sent] + rest else rest
  }

  /** The targets towards which a fault has to be reset: enabling, and shutting down. */
  predicate Resets(target: InternalState) {
    target == OperationEnable || target == SwitchOnDisabled
  }

  predicate ReadyAfter(ready: bool, a: Step) {
    if a.AssignTarget? then Resets(a.target) else ready
  }

  /** The drive is in Fault; the target state is still anything. */
  ghost predicate Waiting(m: Motor) {
    WellFormed(m) && m.observed == Fault
  }

  /** In Fault only a transition changes bit 7 of the stored word, and it sets it, towards
      these targets; only the poll write takes the request. */
  lemma StepKeeps(m: Motor, a: Step)
    requires Waiting(m) && StaysInFault(a)
    ensures var m' := Next(m, a);
            && Waiting(m')
            && Resets(m'.targetState) == ReadyAfter(Resets(m.targetState), a)
            && (CW_FAULT_RESET in m'.cw <==> CW_FAULT_RESET in m.cw || (a.SetTransition? && Resets(m.targetState)))
            && (m'.faultReset <==> m.faultReset && !a.PollWrite?)
    ensures CW_FAULT_RESET in AfterWrite(m).1.sent <==> CW_FAULT_RESET in m.cw && !m.faultReset
  {
    HandleWriteWellFormed(m);
    HandleWriteOwnsPollBits(m);
  }

  function RisingEdges(last: bool, bits: seq<bool>): nat
    decreases |bits|
  {
    if bits == [] then 0 else (if !last && bits[0] then 1 else 0) + RisingEdges(bits[0], bits[1..])
  }

  function Polls(steps: seq<Step>): nat
    decreases |steps|
  {
    if steps == [] then 0 else (if steps[0].PollWrite? then 1 else 0) + Polls(steps[1..])
  }

  /** Some poll write comes after the bit has been set in the stored word. */
  predicate PolledOnceSet(ready: bool, set_: bool, steps: seq<Step>)
    decreases |steps|
  {
    steps != [] &&
    ((set_ && steps[0].PollWrite?) ||
     PolledOnceSet(ReadyAfter(ready, steps[0]), set_ || (ready && steps[0].SetTransition?), steps[1..]))
  }

  /** After the request has been taken, the bit goes up at most once and stays up. */
  lemma {:induction false} AfterTheZero(m: Motor, steps: seq<Step>)
    requires Waiting(m) && !m.faultReset && forall a <- steps :: StaysInFault(a)
    ensures var bits := Sent(m, steps);
            && |bits| == Polls(steps)
            && (forall i, j :: 0 <= i < j < |bits| && bits[i] ==> bits[j])
            && RisingEdges(false, bits) ==
               (if PolledOnceSet(Resets(m.targetState), CW_FAULT_RESET in m.cw, steps) then 1 else 0)
            && RisingEdges(true, bits) <= 1
            && (CW_FAULT_RESET in m.cw ==> RisingEdges(true, bits) == 0 && forall b <- bits :: b)
    decreases |steps|
  {
    if steps != [] {
      StepKeeps(m, steps[0]);
      AfterTheZero(Next(m, steps[0]), steps[1..]);
      if steps[0].PollWrite? {
        var rest := Sent(Next(m, steps[0]), steps[1..]);
        var bits := Sent(m, steps);
        assert bits[1..] == rest;
        forall i, j | 0 <= i < j < |bits| && bits[i]
          ensures bits[j]
        {
          assert bits[j] == rest[j - 1];
          if i > 0 { assert bits[i] == rest[i - 1]; } else { assert rest[j - 1] in rest; }
        }
      }
    }
  }

  /** The same for the poll writes behind the one that takes the request. */
  predicate PolledAgain(ready: bool, set_: bool, steps: seq<Step>)
    decreases |steps|
  {
    steps != [] &&
    if steps[0].PollWrite? then PolledOnceSet(ready, set_, steps[1..])
    else PolledAgain(ReadyAfter(ready, steps[0]), set_ || (ready && steps[0].SetTransition?), steps[1..])
  }

  /** Every request makes exactly one rising edge. Whatever bit 7 was before, in the stored
      word or on the bus, and however the poll thread, the switching thread and the other calls
      interleave: the first word sent has the bit clear, from then on it goes up at most once
      and stays up, and it does go up exactly when a poll write follows the first one with the
      transition set. */
  lemma {:induction false} OneEdgePerRequest(m: Motor, steps: seq<Step>, lastSent: bool)
    requires Waiting(m) && m.faultReset && forall a <- steps :: StaysInFault(a)
    ensures var bits := Sent(m, steps);
            && (bits != [] ==> !bits[0])
            && (forall i, j :: 0 <= i < j < |bits| && bits[i] ==> bits[j])
            && RisingEdges(lastSent, bits) ==
               (if PolledAgain(Resets(m.targetState), CW_FAULT_RESET in m.cw, steps) then 1 else 0)
    decreases |steps|
  {
    if steps != [] {
      var a := steps[0];
      StepKeeps(m, a);
      if a.PollWrite? {
        AfterTheZero(Next(m, a), steps[1..]);
        var rest := Sent(Next(m, a), steps[1..]);
        var bits := Sent(m, steps);
        assert bits == [false] + rest;
        assert bits[1..] == rest;
      } else {
        OneEdgePerRequest(Next(m, a), steps[1..], lastSent);
      }
    }
  }

  /** handleRecover and handleInit both start there, with the request alone: the poll thread
      may take it before the handler is restarted, the target assigned or the transition set. */
  lemma RequestsWait(m: Motor)
    requires WellFormed(m) && m.observed == Fault
    ensures var r := m.(faultReset := true);
            && Waiting(r)
            && BeginRecover(m) == Next(r, Restart)
    ensures var i := BeginInit(m);
            Waiting(i) && i.faultReset && CW_FAULT_RESET !in i.cw
  {
  }
}
