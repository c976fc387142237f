/** The CiA 402 device states and the decoding of the statusword
    (canopen_402_driver/src/state.cpp, canopen_402_driver/include/canopen_402_driver/state.hpp). */
module State402 {
  import opened Word16

  /** The enumeration gives Unknown and Start the same value 0, so both are the
      one constructor Start. */
  datatype InternalState =
    | Start
    | NotReadyToSwitchOn
    | SwitchOnDisabled
    | ReadyToSwitchOn
    | SwitchedOn
    | OperationEnable
    | QuickStopActive
    | FaultReactionActive
    | Fault

  const SW_READY_TO_SWITCH_ON: bit := 0
  const SW_SWITCHED_ON: bit := 1
  const SW_OPERATION_ENABLED: bit := 2
  const SW_FAULT: bit := 3
  const SW_VOLTAGE_ENABLED: bit := 4
  const SW_QUICK_STOP: bit := 5
  const SW_SWITCH_ON_DISABLED: bit := 6
  const SW_REMOTE: bit := 9
  const SW_TARGET_REACHED: bit := 10
  const SW_MODE_SPECIFIC0: bit := 12
  const SW_MODE_SPECIFIC1: bit := 13
  const SW_MANUFACTURER_SPECIFIC1: bit := 14

  /** The switch over the six masked bits, pattern by pattern. */
  function Decode(sw: Word): InternalState {
    var r := SW_READY_TO_SWITCH_ON in sw;
    var s := SW_SWITCHED_ON in sw;
    var o := SW_OPERATION_ENABLED in sw;
    var f := SW_FAULT in sw;
    var q := SW_QUICK_STOP in sw;
    var d := SW_SWITCH_ON_DISABLED in sw;
    match (d, f, o, s, r)
    case (false, false, false, false, false) => NotReadyToSwitchOn
    case (true, false, false, false, false) => SwitchOnDisabled
    case (false, false, false, false, true) => if q then ReadyToSwitchOn else Start
    case (false, false, false, true, true) => if q then SwitchedOn else Start
    case (false, false, true, true, true) => if q then OperationEnable else QuickStopActive
    case (false, true, true, true, true) => FaultReactionActive
    case (false, true, false, false, false) => Fault
    case _ => Start
  }

  /** The states of the standard's table, each a value of some of the bits 0-3, 5 and 6: bit 5 is
      looked at in four states only. Any other word decodes to the initial state. */
  lemma DecodeExactly(sw: Word)
    ensures Decode(sw) == NotReadyToSwitchOn <==> sw * {0, 1, 2, 3, 6} == {}
    ensures Decode(sw) == SwitchOnDisabled <==> sw * {0, 1, 2, 3, 6} == {6}
    ensures Decode(sw) == ReadyToSwitchOn <==> sw * {0, 1, 2, 3, 5, 6} == {0, 5}
    ensures Decode(sw) == SwitchedOn <==> sw * {0, 1, 2, 3, 5, 6} == {0, 1, 5}
    ensures Decode(sw) == OperationEnable <==> sw * {0, 1, 2, 3, 5, 6} == {0, 1, 2, 5}
    ensures Decode(sw) == QuickStopActive <==> sw * {0, 1, 2, 3, 5, 6} == {0, 1, 2}
    ensures Decode(sw) == FaultReactionActive <==> sw * {0, 1, 2, 3, 6} == {0, 1, 2, 3}
    ensures Decode(sw) == Fault <==> sw * {0, 1, 2, 3, 6} == {3}
  {
    var a, c := sw * {0, 1, 2, 3, 6}, sw * {0, 1, 2, 3, 5, 6};
    assert forall b: bit :: b in a <==> b in sw && (b == 0 || b == 1 || b == 2 || b == 3 || b == 6);
    assert forall b: bit :: b in c <==> b in sw && (b == 0 || b == 1 || b == 2 || b == 3 || b == 5 || b == 6);
  }

  /** What a waiter finds that is woken after each stored value and gives up after the last. */
  function FirstOther(known: InternalState, current: InternalState, seen: seq<InternalState>): InternalState
    decreases |seen|
  {
    if current != known || seen == [] then current else FirstOther(known, seen[0], seen[1..])
  }

  /** The observed state, shared by the poll thread (Read) and a thread that waits for a change. */
  class StateHandler {
    var state: InternalState

    constructor ()
      ensures state == Start
    {
      state := Start;
    }

    method Read(sw: Word) returns (now: InternalState)
      modifies this
      ensures state == now == Decode(sw)
    {
      var newState := Decode(sw);
      if newState != state {
        state := newState;
      }
      now := state;
    }

    /** `seen` lists the values the poll thread stores before the deadline. */
    method WaitForNewState(known: InternalState, seen: seq<InternalState>)
      returns (changed: bool, now: InternalState)
      modifies this
      ensures state == now == FirstOther(known, old(state), seen)
      ensures changed <==> now != known
    {
      var i := 0;
      while state == known && i < |seen|
        invariant 0 <= i <= |seen|
        invariant FirstOther(known, state, seen[i..]) == FirstOther(known, old(state), seen)
      {
        assert seen[i..][1..] == seen[i + 1..];
        state := seen[i];
        i := i + 1;
      }
      changed := state != known;
      now := state;
    }
  }

  /** A wait fails exactly when nothing but the known state was stored before the deadline;
      otherwise it reports the first other value, so no change is skipped. */
  lemma {:induction false} FirstOtherMeaning(known: InternalState, current: InternalState, seen: seq<InternalState>)
    ensures var all := [current] + seen;
            var r := FirstOther(known, current, seen);
            && (r == known <==> forall i :: 0 <= i < |all| ==> all[i] == known)
            && (r != known ==> exists i :: 0 <= i < |all| && all[i] == r && forall j :: 0 <= j < i ==> all[j] == known)
    decreases |seen|
  {
    var all := [current] + seen;
    if current == known && seen != [] {
      FirstOtherMeaning(known, seen[0], seen[1..]);
      assert [seen[0]] + seen[1..] == seen;
      var r := FirstOther(known, current, seen);
      if r != known {
        var i :| 0 <= i < |seen| && seen[i] == r && forall j :: 0 <= j < i ==> seen[j] == known;
        assert all[i + 1] == r;
      } else {
        assert forall i :: 0 <= i < |all| ==> all[i] == if i == 0 then current else seen[i - 1];
      }
    } else {
      assert all[0] == current;
    }
  }
}
