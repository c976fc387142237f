/** What the calls of the motor achieve, said without their own terms
    (canopen_402_driver/src/motor.cpp). */
module MotorOutcomes {
  import opened Word16
  import opened Wrappers
  import opened State402
  import opened Command402
  import opened Modes
  import opened MotorSteps
  import opened MockSlave
  import HomingRun = Homing

  // ----- switchState returns true -----

  /** No other call sets the target state meanwhile. */
  predicate Undisturbed(waits: seq<Wait>) {
    forall w <- waits :: w.early == None && w.late == None
  }

  function Newest(target: InternalState, set_: Option<InternalState>): InternalState {
    if set_.Some? then set_.value else target
  }

  /** There is a command from state l towards the target: always towards Operation_Enable. */
  predicate HasCommand(l: InternalState, target: InternalState) {
    target == OperationEnable || l == target || Lookup(l, target).Some?
  }

  /** The newest target is found after some of the waits, and is the wanted one: there is a
      command out of each state on the way, and each wait ends in time with a state other than the
      last one. There is no wait in the initial state once that has become the target. */
  predicate Reaches(l: InternalState, target: InternalState, wanted: InternalState, waits: seq<Wait>)
    decreases |waits|
  {
    if l == target then l == wanted else
    && waits != []
    && var t := Newest(target, waits[0].early);
       HasCommand(l, t) &&
       if l == t == Start then Reaches(l, t, wanted, waits[1..]) else
       var next := FirstOther(l, l, waits[0].seen);
       next != l && Reaches(next, Newest(t, waits[0].late), wanted, waits[1..])
  }

  /** switchState returns true exactly when the states decoded during its waits lead to the newest
      target before the deadline, over any number of hops, and that is still the target of the call:
      for every script, with targets set by other calls at any time. */
  lemma SwitchReturnsExactly(m: Motor, target: InternalState, waits: seq<Wait>)
    ensures AfterSwitch(m, target, waits).1 <==> Reaches(m.observed, target, target, waits)
  {
    LoopReturnsExactly(m.(targetState := target), m.observed, target, waits);
  }

  lemma {:induction false} LoopReturnsExactly(m: Motor, local: InternalState, wanted: InternalState, waits: seq<Wait>)
    requires local == m.observed
    ensures var (m', last, reached) := SwitchFrom(m, local, waits);
            reached && last == wanted <==> Reaches(local, m.targetState, wanted, waits)
    decreases |waits|
  {
    hide FirstOther, NextStateForEnabling;
    if local != m.targetState && waits != [] {
      TurnOutcome(m, local, waits[0]);
      var (m1, goesOn, next) := Turn(m, local, waits[0]);
      hide Turn;
      if goesOn {
        LoopReturnsExactly(m1, next, wanted, waits[1..]);
      }
    }
  }

  lemma TransitionFound(m: Motor, local: InternalState)
    ensures var (m', r) := ApplyTransition(m, local);
            && (r.ok <==> HasCommand(local, m.targetState)) && (r.next == None <==> local == m.targetState)
            && m' == m.(cw := m'.cw) && (!r.ok ==> m' == m)
  {
    EnablingPathEnds(local, m.cw);
    if local != OperationEnable {
      assert EnablingPath(local)[0] == local;
    }
  }

  /** One turn: without a command it fails and sets no word; otherwise it waits, takes over what
      was polled and set meanwhile, and goes on just when another state was decoded. */
  lemma TurnOutcome(m: Motor, local: InternalState, w: Wait)
    ensures var t := Newest(m.targetState, w.early);
            var (m1, goesOn, next) := Turn(m, local, w);
            if !HasCommand(local, t) then !goesOn && m1 == m.(targetState := t)
            else if local == t == Start then goesOn && next == local && m1 == m.(targetState := t)
            else
              && m1.targetState == Newest(t, w.late) && m1.cw == w.poll.word
              && m1.faultReset == w.poll.faultReset && m1.displayed == w.poll.displayed
              && next == m1.observed == FirstOther(local, m.observed, w.seen) && (goesOn <==> next != local)
  {
    hide FirstOther, NextStateForEnabling;
    TransitionFound(Retarget(m, w.early), local);
  }

  /** The state is decoded, and nothing but the known one before it. */
  predicate Finds(known: InternalState, next: InternalState, seen: seq<InternalState>) {
    exists k :: 0 <= k < |seen| && seen[k] == next && forall j :: 0 <= j < k ==> seen[j] == known
  }

  /** The waits show the hops of the enabling path in time. */
  predicate ShowsPath(l: InternalState, waits: seq<Wait>)
    decreases |waits|
  {
    || l == OperationEnable
    || (&& waits != [] && Finds(l, NextStateForEnabling(l), waits[0].seen)
        && ShowsPath(NextStateForEnabling(l), waits[1..]))
  }

  lemma {:induction false} FindsFirst(known: InternalState, next: InternalState, seen: seq<InternalState>)
    requires Finds(known, next, seen) && known != next
    ensures FirstOther(known, known, seen) == next
    decreases |seen|
  {
    if seen[0] == known {
      var k :| 0 <= k < |seen| && seen[k] == next && forall j :: 0 <= j < k ==> seen[j] == known;
      assert seen[1..][k - 1] == next;
      FindsFirst(known, next, seen[1..]);
    } else {
      assert FirstOther(known, seen[0], seen[1..]) == seen[0];
    }
  }

  lemma HopLowersRank(l: InternalState)
    ensures l != OperationEnable ==> Rank(NextStateForEnabling(l)) + 1 == Rank(l)
    ensures Rank(l) == 0 <==> l == OperationEnable
  {
  }

  lemma {:induction false} PathReaches(l: InternalState, waits: seq<Wait>, k: nat)
    requires Undisturbed(waits) && ShowsPath(l, waits) && k <= |waits|
    ensures Reaches(l, OperationEnable, OperationEnable, waits[..k]) <==> Rank(l) <= k
    ensures Rank(l) <= |waits|
    decreases |waits|
  {
    hide NextStateForEnabling, Rank, Lookup, Finds, FirstOther;
    HopLowersRank(l);
    if l != OperationEnable {
      FindsFirst(l, NextStateForEnabling(l), waits[0].seen);
      assert waits[0] in waits && forall w <- waits[1..] :: w in waits;
      if k > 0 {
        PathReaches(NextStateForEnabling(l), waits[1..], k - 1);
        assert waits[..k][1..] == waits[1..][..k - 1];
      } else {
        PathReaches(NextStateForEnabling(l), waits[1..], 0);
      }
    }
  }

  /** Enabling takes one turn a hop: whatever else the waits bring, if they show the hops of the
      path then the call returns true with Operation_Enable observed, after as many turns as there
      are hops from the state observed at first, and with one turn less it fails. */
  lemma EnablingTakesRankTurns(m: Motor, waits: seq<Wait>, k: nat)
    requires Undisturbed(waits) && ShowsPath(m.observed, waits) && k <= |waits|
    ensures AfterSwitch(m, OperationEnable, waits[..k]).1 <==> Rank(m.observed) <= k
    ensures AfterSwitch(m, OperationEnable, waits[..k]).1 ==>
              AfterSwitch(m, OperationEnable, waits[..k]).0.observed == OperationEnable
  {
    SwitchReturnsExactly(m, OperationEnable, waits[..k]);
    PathReaches(m.observed, waits, k);
    SwitchStateOutcome(m, OperationEnable, waits[..k]);
  }

  // ----- switchMode returns true -----

  /** switchMode returns true exactly when the mode is supported and registered, and either it is
      selected and displayed already, or the states decoded lead to the switching state in time,
      the mode is displayed before the next deadline, and the states lead back to Operation_Enable. */
  lemma ModeSwitchReturnsExactly(m: Motor, off: InternalState, mode: int, supported: bool,
                                 offWaits: seq<Wait>, sights: seq<Sight>, onWaits: seq<Wait>)
    requires WellFormed(m) && mode != NO_MODE
    ensures AfterSwitchMode(m, off, mode, supported, offWaits, sights, onWaits).1 <==>
            && supported && mode in m.modes
            && (|| (m.displayed == mode && m.selected == Some(mode))
                || (&& Reaches(m.observed, off, off, offWaits)
                    && var dropped := StartHandler(m, mode).(selected := None);
                       var m2 := AfterSwitch(dropped, off, offWaits).0;
                       var d := BeforeDecision(dropped, off, mode, offWaits, sights).0;
                       Shows(mode, m2, sights) && Reaches(d.observed, OperationEnable, OperationEnable, onWaits)))
  {
    if supported && mode in m.modes && !(m.displayed == mode && m.selected == Some(mode)) {
      var dropped := StartHandler(m, mode).(selected := None);
      SwitchReturnsExactly(dropped, off, offWaits);
      DecisionFindsMode(dropped, off, mode, offWaits, sights);
      var d := BeforeDecision(dropped, off, mode, offWaits, sights).0;
      SwitchReturnsExactly(Decide(d, mode).0, OperationEnable, onWaits);
    }
    hide AfterSwitch, BeforeDecision, Reaches, Shows;
  }

  // ----- The wait for the display -----

  /** A sight leaves what the poll thread read and decoded. */
  lemma SightOutcome(m: Motor, s: Sight)
    ensures var m' := AfterSight(m, s);
            && m'.observed == Decode(s.sw) && m'.displayed == s.poll.displayed
            && m'.cw == s.poll.word && m'.faultReset == s.poll.faultReset
            && m'.targetState == if s.target.Some? then s.target.value else m.targetState
  {
    hide Decode;
  }

  /** The wait ends at the first sight that shows the mode, or with the last one. */
  lemma {:induction false} WaitEndsAtFirst(m: Motor, mode: int, sights: seq<Sight>) returns (k: nat)
    ensures k <= |sights| && UntilShown(m, mode, sights) == AfterSights(m, sights[..k])
    ensures k == |sights| || AfterSights(m, sights[..k]).displayed == mode
    ensures m.displayed == mode ==> k == 0
    ensures forall j :: 0 <= j < k - 1 ==> sights[j].poll.displayed != mode
    decreases |sights|
  {
    hide Decode;
    if m.displayed == mode || sights == [] {
      k := 0;
    } else {
      var rest := WaitEndsAtFirst(AfterSight(m, sights[0]), mode, sights[1..]);
      k := rest + 1;
      assert sights[..k][1..] == sights[1..][..rest];
      forall j | 0 <= j < k - 1 ensures sights[j].poll.displayed != mode {
        if j > 0 { assert sights[j] == sights[1..][j - 1]; }
      }
    }
  }

  // ----- Halting, reading, targets, recovering -----

  /** handleHalt refuses in a fault. From Operation_Enable the word keeps all bits but 1, 2 and 7,
      shows a quick stop, and the next word sent brings an enabled slave to Quick_Stop_Active and
      keeps it there; from any other state it makes the observed state the target. */
  lemma HaltOutcome(m: Motor)
    requires WellFormed(m)
    ensures var (m', ok) := AfterHalt(m);
            && (ok <==> m.observed != Fault && m.observed != FaultReactionActive)
            && (!ok ==> m' == m)
            && (ok && m.observed != OperationEnable ==> m' == m.(targetState := m.observed))
            && (m.observed == OperationEnable ==>
                  && m' == m.(targetState := QuickStopActive, cw := m'.cw)
                  && (forall b: bit :: b in m'.cw <==> b == 1 || (b in m.cw && b != 2 && b != 7))
                  && WellFormed(m')
                  && var sent := AfterWrite(m').1.sent;
                     NextState(OperationEnable, sent) == QuickStopActive == NextState(QuickStopActive, sent))
  {
    if m.observed == OperationEnable {
      var m' := AfterHalt(m).0;
      WriteSendsRight(m');
      var sent := AfterWrite(m').1.sent;
      assert 1 in sent && 2 !in sent && 7 !in sent;
      hide AfterWrite, AsksRight;
    }
  }

  /** readState: the state is decoded, the display stored, and of the handlers only a selected
      and displayed one sees the status word, homing three bits of it. */
  lemma ReadOutcome(m: Motor, sw: Word, display: int)
    requires WellFormed(m)
    ensures var m' := ReadDisplay(ReadStatus(m, sw), sw, display);
            && m' == m.(observed := Decode(sw), displayed := display, modes := m'.modes)
            && m'.modes.Keys == m.modes.Keys
            && forall id <- m.modes ::
                 if m.selected != Some(id) || id != display then m'.modes[id] == m.modes[id] else
                 match m.modes[id]
                 case Forward(_, _, _) => m'.modes[id] == m.modes[id]
                 case Position(target, has, last, _) => m'.modes[id] == Position(target, has, last, sw)
                 case Homing(execute, _) =>
                   && m'.modes[id].Homing? && m'.modes[id].execute == execute
                   && forall b: bit :: b in m'.modes[id].status <==> b in sw && b in {10, 12, 13}
  {
    hide Decode, Fitting;
    assert forall b: bit :: b in HOMING_STATUS <==> b in {10, 12, 13};
  }

  /** The value is the command, cut off after the point and at the limits of its type. */
  predicate Saturates(lo: int, hi: int, val: Double, v: int) {
    match val
    case NaN => false
    case NegativeInfinity => v == lo
    case PositiveInfinity => v == hi
    case Finite(x) =>
      if x <= lo as real - 1.0 then v == lo else if x >= hi as real + 1.0 then v == hi else CutOff(v, x)
  }

  /** The limits of the targets of a mode. */
  function Limits(id: int): (int, int) {
    if id in {2, 4, 10} then (-32768, 32767) else (-2147483648, 2147483647)
  }

  /** setTarget reaches the selected handler just when the drive is observed enabled, the value
      is a number, and the mode is not homing; no other handler is touched. */
  lemma TargetOutcome(m: Motor, val: Double)
    requires WellFormed(m)
    ensures var m' := AfterTarget(m, val);
            var taken := AcceptedTarget(m, val).Some?;
            && (taken <==>
                  m.observed == OperationEnable && m.selected.Some? && m.selected != Some(HOMING) && val != NaN)
            && (!taken ==> m' == m)
            && (taken ==>
                  var id := m.selected.value;
                  && m' == m.(modes := m.modes[id := m'.modes[id]])
                  && var h, h' := m.modes[id], m'.modes[id];
                     && !h'.Homing? && h'.hasTarget && Saturates(Limits(id).0, Limits(id).1, val, h'.target)
                     && (h.Forward? ==> h'.Forward? && h'.to == h.to)
                     && (h.Position? ==> h'.Position? && h'.last == h.last && h'.sw == h.sw))
  {
    if m.selected.Some? {
      var id := m.selected.value;
      assert Fitting(id, m.modes[id]);
      ForwardedObjects(id);
      if val.Finite? { TruncateCutsOff(val.x, Truncate(val.x)); }
    }
    hide ForwardingOf, CutOff, Truncate;
  }

  /** Before it switches the state, handleRecover asks for a fault reset and disarms the selected handler. */
  lemma RecoverOutcome(m: Motor)
    requires WellFormed(m)
    ensures var m' := BeginRecover(m);
            && m' == m.(faultReset := true, modes := m'.modes) && m'.modes.Keys == m.modes.Keys
            && forall id <- m.modes ::
                 if m.selected == Some(id) then !Armed(m'.modes[id]) else m'.modes[id] == m.modes[id]
  {
    hide Fitting;
  }

  // ----- handleInit -----

  /** Before it switches the state, handleInit clears the stored word, asks for a fault reset,
      and has read the drive; handlers registered before are kept. */
  lemma InitOutcome(m: Motor, handlers: map<int, Mode>, sw: Word, display: int)
    requires WellFormed(m) && forall id <- handlers :: Fitting(id, handlers[id])
    ensures var b := BeginInit(Registered(m, handlers, sw, display));
            && b.cw == {} && b.faultReset && b.observed == Decode(sw) && b.displayed == display
            && b.selected == m.selected && b.opMode == m.opMode
            && b.modes.Keys == m.modes.Keys + handlers.Keys
            && forall id <- b.modes :: m.selected != Some(id) ==>
                 b.modes[id] == if id in m.modes then m.modes[id] else handlers[id]
  {
    hide Decode, ReadMode;
  }

  /** The first word that handleInit prepares for a disabled drive is a shutdown, with the fault
      reset still to be sent. */
  lemma InitFirstWord(m: Motor, handlers: map<int, Mode>, sw: Word, display: int)
    requires WellFormed(m) && (forall id <- handlers :: Fitting(id, handlers[id])) && Decode(sw) == SwitchOnDisabled
    ensures var (m', up) := Enabled(m, handlers, sw, display, []);
            !up && m'.cw == {1, 2} && m'.faultReset && m'.targetState == OperationEnable
  {
    InitOutcome(m, handlers, sw, display);
    hide Decode, Registered;
  }

  /** While homing runs, its handler sees at each read the three status bits if homing is
      displayed, and otherwise what it saw before. */
  lemma {:induction false} StatusesMeaning(status: Word, sights: seq<Sight>, k: nat)
    requires k <= |sights|
    ensures var all := Statuses(status, sights);
            if k == 0 then all[0] == status
            else all[k] == if sights[k - 1].poll.displayed == 6 then sights[k - 1].sw * {10, 12, 13} else all[k - 1]
    decreases |sights|
  {
    if k > 0 {
      var next := if sights[0].poll.displayed == HOMING then sights[0].sw * HOMING_STATUS else status;
      StatusesMeaning(next, sights[1..], k - 1);
    }
  }

  /** After homing its handler is idle and has the last status; success selects no mode, and
      failure leaves the selection. */
  lemma HomingEnds(m: Motor, ok: bool, sights: seq<Sight>, status: Word)
    ensures var e := HomingDone(m, ok, sights, status);
            && HOMING in e.modes && e.modes[HOMING] == Homing(false, Statuses(status, sights)[|sights|])
            && (e.selected, e.opMode) == (if ok then (None, NO_MODE) else (m.selected, m.opMode))
            && (sights != [] ==> e.observed == Decode(sights[|sights| - 1].sw))
            && (sights == [] ==> e.observed == m.observed)
  {
    SightsKeep(m, sights);
    SightsShowLast(m, sights);
    hide AfterSights, Statuses, SameHandlers, Decode;
  }

  lemma {:induction false} SightsShowLast(m: Motor, sights: seq<Sight>)
    ensures AfterSights(m, sights).observed ==
            if sights == [] then m.observed else Decode(sights[|sights| - 1].sw)
    decreases |sights|
  {
    hide Decode;
    if sights != [] {
      SightsShowLast(AfterSight(m, sights[0]), sights[1..]);
    }
  }

  /** While homing is selected, displayed and observed enabled, the word sent commands it just as
      its execute flag says, with Halt clear and the start bit set or the other way round. */
  lemma HomingIsCommanded(m: Motor)
    requires WellFormed(m) && m.observed == OperationEnable && m.selected == Some(6) && m.displayed == 6
    ensures 6 in m.modes && m.modes[6].Homing?
    ensures var sent := AfterWrite(m).1.sent;
            && (4 in sent <==> m.modes[6].execute) && (8 in sent <==> !m.modes[6].execute)
            && 5 !in sent && 6 !in sent && 9 !in sent
  {
    assert Fitting(6, m.modes[6]);
    WriteSendsRight(m);
    hide AfterWrite;
  }
}
