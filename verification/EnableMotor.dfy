/** The enabling loop is the motor's: runs of the sections of Motor402 against the bus and the
    slave are runs of the loop, so that what holds of the loop holds of the motor
    (canopen_402_driver/src/motor.cpp). */
module EnableMotor {
  import opened Word16
  import opened Wrappers
  import opened State402
  import opened Command402
  import opened MockSlave
  import opened Modes
  import opened MotorSteps
  import EnableLoop

  /** A motor in switchState(Operation_Enable), acting on state `local`, with the frames in
      flight and the slave. */
  datatype System = System(m: Motor, wire: seq<Word>, slave: Slave, back: seq<Word>, received: Word,
                           local: InternalState, applied: bool)

  datatype Step =
    | HandleWrite
    | PollStatus                       // readState, its status word
    | PollDisplay(display: int)        // readState, its mode display
    | Target(val: Double)              // setTarget
    | Turn                             // switchState sets its transition
    | Wake                             // and takes over the observed state
    | Outside(step: EnableLoop.Step)   // the bus or the slave

  predicate Allowed(a: Step) {
    a.Outside? ==>
      EnableLoop.Allowed(a.step) && !a.step.Apply? && !a.step.Wake? && !a.step.PollWrite? && !a.step.PollRead?
  }

  /** The motor wants Operation_Enable. */
  predicate Wanted(s: System) {
    WellFormed(s.m) && s.m.targetState == OperationEnable
  }

  /** The system as the loop sees it. */
  function Seen(s: System): EnableLoop.Loop {
    EnableLoop.Loop(s.m.cw, s.wire, s.slave, s.back, s.received, s.m.observed, s.local, s.applied)
  }

  function Next(s: System, a: Step): System
    requires WellFormed(s.m)
  {
    match a
    case HandleWrite =>
      var (m, out) := AfterWrite(s.m);
      s.(m := m, wire := s.wire + [out.sent])
    case PollStatus => s.(m := ReadStatus(s.m, s.received))
    case PollDisplay(display) => s.(m := ReadDisplay(s.m, s.received, display))
    case Target(val) => s.(m := AfterTarget(s.m, val))
    case Turn =>
      if s.applied || s.local == s.m.targetState then s
      else s.(m := ApplyTransition(s.m, s.local).0, applied := true)
    case Wake =>
      if s.applied && s.m.observed != s.local then s.(local := s.m.observed, applied := false) else s
    case Outside(step) =>
      var l := EnableLoop.Next(Seen(s), step);
      s.(wire := l.wire, slave := l.slave, back := l.back, received := l.received)
  }

  /** The steps of the loop that a step of the system makes: one, or none. */
  function Made(s: System, a: Step): seq<EnableLoop.Step>
    requires WellFormed(s.m)
  {
    match a
    case HandleWrite => [EnableLoop.PollWrite(AfterWrite(s.m).0.cw, s.m.faultReset)]
    case PollStatus => [EnableLoop.PollRead]
    case PollDisplay(_) => []
    case Target(_) => []
    case Turn => [EnableLoop.Apply]
    case Wake => [EnableLoop.Wake]
    case Outside(step) => [step]
  }

  /** handleWrite is a poll write of the loop, whatever mode runs and whether or not a fault
      reset is pending. */
  lemma WriteIsPollWrite(m: Motor)
    requires WellFormed(m)
    ensures var (m', out) := AfterWrite(m);
            && WellFormed(m') && m'.observed == m.observed && m'.targetState == m.targetState
            && m'.cw == EnableLoop.Stored(m.cw, m'.cw) && out.sent == EnableLoop.Sent(m.cw, m'.cw, m.faultReset)
  {
    HandleWriteWellFormed(m);
    HandleWriteOwnsPollBits(m);
    var (m', out) := AfterWrite(m);
    assert m'.cw == (m'.cw - POLL_BITS) + m'.cw * POLL_BITS;
  }

  /** The transition towards Operation_Enable never fails, and reports the next hop. */
  lemma TransitionSucceeds(m: Motor, local: InternalState)
    requires m.targetState == OperationEnable != local
    ensures var r := ApplyTransition(m, local).1; r.ok && r.next == Some(NextStateForEnabling(local))
  {
    EnablingPathEnds(local, m.cw);
    assert EnablingPath(local)[0] == local;
  }

  lemma OutsideOnly(l: EnableLoop.Loop, a: EnableLoop.Step)
    requires !a.Apply? && !a.Wake? && !a.PollWrite? && !a.PollRead?
    ensures var m := EnableLoop.Next(l, a);
            m.cw == l.cw && m.observed == l.observed && m.local == l.local && m.applied == l.applied
  {
    if a.DeliverAll? { DrainOnly(l); }
  }

  lemma {:induction false} DrainOnly(l: EnableLoop.Loop)
    ensures var m := EnableLoop.Drain(l);
            m.cw == l.cw && m.observed == l.observed && m.local == l.local && m.applied == l.applied
    decreases |l.wire|
  {
    if l.wire != [] { DrainOnly(EnableLoop.DeliverOne(l)); }
  }

  function Done(l: EnableLoop.Loop, made: seq<EnableLoop.Step>): EnableLoop.Loop
    requires |made| <= 1
  {
    if made == [] then l else EnableLoop.Next(l, made[0])
  }

  /** Each step of the system is the loop's, or invisible to it. */
  lemma LoopIsTheMotor(s: System, a: Step)
    requires Wanted(s) && Allowed(a)
    ensures Wanted(Next(s, a)) && |Made(s, a)| <= 1
    ensures Seen(Next(s, a)) == Done(Seen(s), Made(s, a))
    ensures forall b <- Made(s, a) :: EnableLoop.Allowed(b)
  {
    hide AfterWrite, SetTransition, Decode, EnableLoop.Stored, EnableLoop.Sent;
    match a
    case HandleWrite => WriteIsPollWrite(s.m);
    case Outside(step) => OutsideOnly(Seen(s), step);
    case _ =>
  }

  function Run(s: System, steps: seq<Step>): System
    requires Wanted(s) && forall a <- steps :: Allowed(a)
    decreases |steps|
  {
    if steps == [] then s else
    LoopIsTheMotor(s, steps[0]);
    Run(Next(s, steps[0]), steps[1..])
  }

  /** The run of the loop that a run of the system makes. */
  function MadeBy(s: System, steps: seq<Step>): seq<EnableLoop.Step>
    requires Wanted(s) && forall a <- steps :: Allowed(a)
    decreases |steps|
  {
    if steps == [] then [] else
    LoopIsTheMotor(s, steps[0]);
    Made(s, steps[0]) + MadeBy(Next(s, steps[0]), steps[1..])
  }

  /** Every run of the motor's sections is a run of the loop. */
  lemma {:induction false} RunIsTheLoops(s: System, steps: seq<Step>)
    requires Wanted(s) && forall a <- steps :: Allowed(a)
    ensures Wanted(Run(s, steps)) && Seen(Run(s, steps)) == EnableLoop.Run(Seen(s), MadeBy(s, steps))
    ensures forall b <- MadeBy(s, steps) :: EnableLoop.Allowed(b)
    decreases |steps|
  {
    hide Next, Made, WellFormed, Seen, EnableLoop.Next;
    if steps != [] {
      var a := steps[0];
      LoopIsTheMotor(s, a);
      RunIsTheLoops(Next(s, a), steps[1..]);
      var rest := MadeBy(Next(s, a), steps[1..]);
      if Made(s, a) == [] {
        assert [] + rest == rest;
      } else {
        assert (Made(s, a) + rest)[1..] == rest;
      }
    }
  }

  lemma {:induction false} RunSplit(s: System, x: seq<Step>, y: seq<Step>)
    requires Wanted(s) && (forall a <- x :: Allowed(a)) && forall a <- y :: Allowed(a)
    ensures Wanted(Run(s, x)) && Run(s, x + y) == Run(Run(s, x), y)
    ensures MadeBy(s, x + y) == MadeBy(s, x) + MadeBy(Run(s, x), y)
    decreases |x|
  {
    hide Next, Made, WellFormed;
    if x == [] {
      assert x + y == y;
    } else {
      LoopIsTheMotor(s, x[0]);
      assert (x + y)[1..] == x[1..] + y;
      RunSplit(Next(s, x[0]), x[1..], y);
    }
  }

  /** Enabling is monotone for the motor itself: from an agreement of motor and slave, for every
      order of handleWrite, readState, setTarget, the sections of switchState, deliveries and
      slave activity after the first transition, motor and slave stay within one hop, and the slave
      never moves away from Operation_Enable. */
  lemma MotorEnablesMonotonically(start: System, earlier: seq<Step>, later: seq<Step>)
    requires Wanted(start) && EnableLoop.InSync(Seen(start))
    requires (forall a <- earlier :: Allowed(a)) && forall a <- later :: Allowed(a)
    ensures Wanted(Next(start, Turn))
    ensures var s := Run(Next(start, Turn), earlier);
            var t := Run(Next(start, Turn), earlier + later);
            && EnableLoop.OneHopApart(Seen(s)) && EnableLoop.OneHopApart(Seen(t))
            && Rank(t.slave.state) <= Rank(s.slave.state) <= Rank(start.slave.state)
  {
    LoopIsTheMotor(start, Turn);
    var first := Next(start, Turn);
    assert Seen(first) == EnableLoop.Next(Seen(start), EnableLoop.Apply);
    RunSplit(first, earlier, later);
    RunIsTheLoops(first, earlier);
    RunIsTheLoops(first, earlier + later);
    RunIsTheLoops(Run(first, earlier), later);
    EnableLoop.EnablingIsMonotone(Seen(start), MadeBy(first, earlier), MadeBy(Run(first, earlier), later));
    hide EnableLoop.OneHopApart, EnableLoop.InSync, Next, Made, Run, MadeBy;
  }

  /** The step of the system that moves stage k on. */
  predicate Helps(k: nat, a: Step) {
    match k
    case 0 => a == Turn
    case 1 => a == HandleWrite
    case 2 => a == Outside(EnableLoop.DeliverAll)
    case 3 => a == Outside(EnableLoop.ArriveAll)
    case 4 => a == PollStatus
    case 5 => a == Wake
    case _ => false
  }

  /** The steps contain, in this order and with anything in between, a transition, a
      handleWrite, its delivery, the status coming back, a readState and a wake-up. */
  predicate Fair(steps: seq<Step>, k: nat)
    decreases |steps|
  {
    k >= 6 || (steps != [] && Fair(steps[1..], if Helps(k, steps[0]) then k + 1 else k))
  }

  lemma HelpsAlike(s: System, a: Step, k: nat)
    requires Wanted(s) && Allowed(a)
    ensures if Made(s, a) == [] then !Helps(k, a)
            else |Made(s, a)| == 1 && (Helps(k, a) <==> EnableLoop.Helps(k, Made(s, a)[0]))
  {
  }

  lemma {:induction false} FairIsTheLoops(s: System, steps: seq<Step>, k: nat)
    requires Wanted(s) && (forall a <- steps :: Allowed(a)) && Fair(steps, k)
    ensures EnableLoop.Fair(MadeBy(s, steps), k)
    decreases |steps|
  {
    hide Next, Made, WellFormed, Helps, EnableLoop.Helps;
    if k < 6 {
      var a := steps[0];
      LoopIsTheMotor(s, a);
      HelpsAlike(s, a, k);
      var rest := MadeBy(Next(s, a), steps[1..]);
      FairIsTheLoops(Next(s, a), steps[1..], if Helps(k, a) then k + 1 else k);
      if Made(s, a) == [] {
        assert [] + rest == rest;
      } else {
        assert (Made(s, a) + rest)[1..] == rest;
      }
    }
  }

  predicate AllFair(rounds: seq<seq<Step>>) {
    forall r <- rounds :: Fair(r, 0) && forall a <- r :: Allowed(a)
  }

  function RunRounds(s: System, rounds: seq<seq<Step>>): System
    requires Wanted(s) && AllFair(rounds)
    decreases |rounds|
  {
    if rounds == [] then s else
    assert Fair(rounds[0], 0) && forall a <- rounds[0] :: Allowed(a);
    RunIsTheLoops(s, rounds[0]);
    RunRounds(Run(s, rounds[0]), rounds[1..])
  }

  /** The motor gets there: as many fair rounds as there are hops left bring the switching
      call, the observed state and the slave to Operation_Enable. */
  lemma {:induction false} MotorEnables(s: System, rounds: seq<seq<Step>>)
    requires Wanted(s) && EnableLoop.Inv(Seen(s)) && |rounds| >= Rank(s.local) && AllFair(rounds)
    ensures var end := RunRounds(s, rounds);
            end.local == end.m.observed == end.slave.state == OperationEnable
    decreases |rounds|
  {
    hide EnableLoop.Inv, EnableLoop.Fair, EnableLoop.Run, Next, Run, MadeBy, Wanted;
    if rounds == [] {
      EnableLoop.EnablingTerminates(Seen(s), []);
      assert EnableLoop.RunRounds(Seen(s), []) == Seen(s);
    } else {
      assert Fair(rounds[0], 0) && forall a <- rounds[0] :: Allowed(a);
      RunIsTheLoops(s, rounds[0]);
      FairIsTheLoops(s, rounds[0], 0);
      EnableLoop.FairRoundLowersRank(Seen(s), MadeBy(s, rounds[0]));
      assert forall r <- rounds[1..] :: r in rounds;
      MotorEnables(Run(s, rounds[0]), rounds[1..]);
    }
  }

  // ----- The call that runs in the system -----

  /** A call of switchState as the run meets it: one wait for each effective wake-up, which
      finds the motor as it is there. */
  function Script(s: System, steps: seq<Step>): seq<Wait>
    requires Wanted(s) && forall a <- steps :: Allowed(a)
    decreases |steps|
  {
    if steps == [] then [] else
    LoopIsTheMotor(s, steps[0]);
    var rest := Script(Next(s, steps[0]), steps[1..]);
    if Wakes(s, steps[0]) then [WaitFor(s.m)] + rest else rest
  }

  predicate Wakes(s: System, a: Step) {
    a.Wake? && s.applied && s.m.observed != s.local
  }

  function WaitFor(m: Motor): Wait
    requires WellFormed(m)
  {
    var handler := if m.selected.Some? then Some(m.modes[m.selected.value]) else None;
    Wait(None, Poll(m.cw, m.faultReset, m.displayed, handler), None, [m.observed])
  }

  /** The call is where the system is: motor `called`, at the head of its loop, differs in what
      was polled since. */
  predicate Follows(called: Motor, s: System) {
    && Wanted(s) && WellFormed(called)
    && called.targetState == OperationEnable && called.observed == s.local
    && SameButPolled(called, s.m)
    && (s.local == OperationEnable ==> !s.applied)
  }

  lemma StepPolls(s: System, a: Step)
    requires Wanted(s) && Allowed(a)
    ensures SameButPolled(s.m, Next(s, a).m)
    ensures !Wakes(s, a) ==> Next(s, a).local == s.local
    ensures s.local == OperationEnable && !s.applied ==> !Next(s, a).applied
  {
    match a
    case HandleWrite => WritePolls(s.m);
    case Target(val) => TargetPolls(s.m, val);
    case PollDisplay(display) => DisplayPolls(s.m, s.received, display);
    case Outside(step) => NothingPolled(s.m, s.local);
    case _ => NothingPolled(s.m, s.local);
    hide SameHandlers, AfterWrite, AfterTarget, ReadDisplay;
  }

  lemma WritePolls(m: Motor)
    requires WellFormed(m)
    ensures SameButPolled(m, AfterWrite(m).0)
  {
    HandleWriteOwnsPollBits(m);
    hide Assign, Fitting;
  }

  lemma TargetPolls(m: Motor, val: Double)
    requires WellFormed(m)
    ensures SameButPolled(m, AfterTarget(m, val))
  {
    hide CastTarget, Fitting;
  }

  lemma DisplayPolls(m: Motor, sw: Word, display: int)
    requires WellFormed(m)
    ensures SameButPolled(m, ReadDisplay(m, sw, display))
  {
    hide Fitting;
  }

  lemma PollsFollow(called: Motor, s: System, a: Step)
    requires Follows(called, s) && Allowed(a) && !Wakes(s, a)
    ensures Follows(called, Next(s, a)) && Next(s, a).local == s.local
  {
    LoopIsTheMotor(s, a);
    StepPolls(s, a);
    PolledTwice(called, s.m, Next(s, a).m);
    hide Next, WellFormed, SameHandlers;
  }

  /** A turn with the wait of a wake-up leads to the motor that wakes. */
  lemma WakeFollows(called: Motor, s: System)
    requires Follows(called, s) && Wakes(s, Wake)
    ensures var (m1, goesOn, next) := MotorSteps.Turn(called, s.local, WaitFor(s.m));
            goesOn && next == s.m.observed && Follows(m1, Next(s, Wake))
  {
    hide SetTransition, Fitting;
    TransitionSucceeds(called, s.local);
    var m1 := MotorSteps.Turn(called, s.local, WaitFor(s.m)).0;
    var seen := [s.m.observed];
    assert FirstOther(s.local, s.local, seen) == FirstOther(s.local, seen[0], seen[1..]);
    assert m1.modes.Keys == s.m.modes.Keys;
    assert forall id <- m1.modes :: m1.modes[id] == s.m.modes[id];
    assert m1.modes == s.m.modes;
    NothingPolled(m1, s.local);
  }

  lemma {:induction false} ScriptIsTheCall(called: Motor, s: System, steps: seq<Step>)
    requires Wanted(s) && Follows(called, s) && forall a <- steps :: Allowed(a)
    ensures var (m', last, reached) := SwitchFrom(called, s.local, Script(s, steps));
            && (reached <==> Run(s, steps).local == OperationEnable)
            && (reached ==> last == OperationEnable && Follows(m', Run(s, steps)))
    decreases |steps|
  {
    hide MotorSteps.Turn, SameButPolled, WellFormed, Next, ApplyTransition;
    if steps != [] {
      LoopIsTheMotor(s, steps[0]);
      if Wakes(s, steps[0]) {
        WakeFollows(called, s);
        var m1 := MotorSteps.Turn(called, s.local, WaitFor(s.m)).0;
        ScriptIsTheCall(m1, Next(s, steps[0]), steps[1..]);
      } else {
        PollsFollow(called, s, steps[0]);
        ScriptIsTheCall(called, Next(s, steps[0]), steps[1..]);
      }
    }
  }

  function Joined(rounds: seq<seq<Step>>): seq<Step>
    decreases |rounds|
  {
    if rounds == [] then [] else rounds[0] + Joined(rounds[1..])
  }

  lemma {:induction false} JoinedRuns(s: System, rounds: seq<seq<Step>>)
    requires Wanted(s) && AllFair(rounds)
    ensures forall a <- Joined(rounds) :: Allowed(a)
    ensures Run(s, Joined(rounds)) == RunRounds(s, rounds)
    decreases |rounds|
  {
    hide Next, Made, WellFormed, Fair, Wanted;
    if rounds != [] {
      var round, rest := rounds[0], rounds[1..];
      assert round in rounds && forall r <- rest :: r in rounds;
      RunIsTheLoops(s, round);
      JoinedRuns(Run(s, round), rest);
      RunSplit(s, round, Joined(rest));
    }
  }

  /** The switching call that runs in the system: it returns true just when the run brings it to
      Operation_Enable, and then with the motor as the run left it, polls since excepted. */
  lemma CallReturnsExactly(s: System, steps: seq<Step>)
    requires Wanted(s) && s.local == s.m.observed && (s.local == OperationEnable ==> !s.applied)
    requires forall a <- steps :: Allowed(a)
    ensures var (m', ok) := AfterSwitch(s.m, OperationEnable, Script(s, steps));
            && (ok <==> Run(s, steps).local == OperationEnable)
            && (ok ==> Wanted(Run(s, steps)) && SameButPolled(m', Run(s, steps).m))
  {
    NothingPolled(s.m, s.local);
    ScriptIsTheCall(s.m, s, steps);
    assert s.m.(targetState := OperationEnable) == s.m;
    hide Next, SameHandlers, Script, SwitchFrom;
  }

  /** switchState(Operation_Enable) succeeds: from an agreement of motor and slave, for every
      order of the steps, if after its first transition there are as many fair rounds as hops left
      then the call returns true. */
  lemma EnablingCallSucceeds(start: System, rounds: seq<seq<Step>>)
    requires Wanted(start) && EnableLoop.InSync(Seen(start)) && AllFair(rounds) && |rounds| >= Rank(start.local)
    ensures forall a <- [Turn] + Joined(rounds) :: Allowed(a)
    ensures AfterSwitch(start.m, OperationEnable, Script(start, [Turn] + Joined(rounds))).1
  {
    var steps := [Turn] + Joined(rounds);
    LoopIsTheMotor(start, Turn);
    var first := Next(start, Turn);
    assert Seen(first) == EnableLoop.Next(Seen(start), EnableLoop.Apply);
    assert first.local == start.local && start.local == start.m.observed && !start.applied;
    EnableLoop.FirstTransitionEstablishes(Seen(start));
    JoinedRuns(first, rounds);
    MotorEnables(first, rounds);
    assert steps[0] == Turn && steps[1..] == Joined(rounds);
    CallReturnsExactly(start, steps);
    hide EnableLoop.Inv, EnableLoop.InSync, Script, AfterSwitch, Next, AllFair, RunRounds;
  }
}
