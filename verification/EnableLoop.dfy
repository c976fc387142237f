/** switchState(Operation_Enable) against the slave, with frames in flight both ways: the
    poll thread, the switching thread, the bus and the slave take steps in any order
    (canopen_402_driver/src/motor.cpp, canopen_fake_slaves/include/canopen_fake_slaves/cia402_slave.hpp). */
module EnableLoop {
  import opened Word16
  import opened State402
  import opened Command402
  import opened MockSlave

  datatype Loop = Loop(
    cw: Word,                 // the driver's stored control word
    wire: seq<Word>,          // control words on their way to the slave, oldest first
    slave: Slave,
    back: seq<Word>,          // status words on their way to the driver, oldest first
    received: Word,           // the last status word that arrived
    observed: InternalState,  // what the poll thread decoded last
    local: InternalState,     // the state the switching thread acts on
    applied: bool)            // it has set the transition out of `local` and waits

  datatype Step =
    | Apply                                  // the switching thread sets the transition
    | Wake                                   // it wakes and takes over the observed state
    | PollWrite(bits: Word, reset: bool)     // the poll thread sends; reset: with bit 7 masked out
    | PollRead                               // the poll thread decodes the last status word
    | Deliver                                // the oldest control word reaches the slave
    | DeliverAll
    | Arrive                                 // the oldest status word reaches the driver
    | ArriveAll
    | Status(set_: Word, clear: Word)        // a mode thread of the slave flips bits and transmits
    | Mode(m: int)                           // a mode of operation reaches the slave, which transmits

  predicate Allowed(a: Step) {
    a.Status? ==> Possible(Thread(a.set_, a.clear))
  }

  function Stored(cw: Word, bits: Word): Word {
    (cw - POLL_BITS) + bits * POLL_BITS
  }

  function Sent(cw: Word, bits: Word, reset: bool): Word {
    if reset then Stored(cw, bits) - {CW_FAULT_RESET} else Stored(cw, bits)
  }

  function DeliverOne(l: Loop): Loop
    requires l.wire != []
  {
    var s := OnEvent(l.slave, Write(l.wire[0]));
    l.(wire := l.wire[1..], slave := s, back := l.back + [s.sw])
  }

  function Drain(l: Loop): Loop
    decreases |l.wire|
  {
    if l.wire == [] then l else Drain(DeliverOne(l))
  }

  function Next(l: Loop, a: Step): Loop {
    match a
    case Apply =>
      if l.applied || l.local == OperationEnable then l else
      l.(cw := SetTransition(l.cw, l.local, OperationEnable, true).cw, applied := true)
    case Wake =>
      if l.applied && l.observed != l.local then l.(local := l.observed, applied := false) else l
    case PollWrite(bits, reset) =>
      l.(cw := Stored(l.cw, bits), wire := l.wire + [Sent(l.cw, bits, reset)])
    case PollRead => l.(observed := Decode(l.received))
    case Deliver => if l.wire == [] then l else DeliverOne(l)
    case DeliverAll => Drain(l)
    case Arrive => if l.back == [] then l else l.(received := l.back[0], back := l.back[1..])
    case ArriveAll => if l.back == [] then l else l.(received := l.back[|l.back| - 1], back := [])
    case Status(set_, clear) =>
      var s := OnEvent(l.slave, Thread(set_, clear));
      l.(slave := s, back := l.back + [s.sw])
    case Mode(m) =>
      var s := OnEvent(l.slave, SelectMode(m));
      l.(slave := s, back := l.back + [s.sw])
  }

  function Run(l: Loop, steps: seq<Step>): Loop
    decreases |steps|
  {
    if steps == [] then l else Run(Next(l, steps[0]), steps[1..])
  }

  // ----- What the words in flight do -----

  /** The word leaves a slave in state s where it is. */
  predicate Keeps(s: InternalState, w: Word) {
    NextState(s, w) == s
  }

  /** The word takes a slave in state s one hop on, and leaves it there when it comes again. */
  predicate Hops(s: InternalState, w: Word) {
    NextState(s, w) == NextStateForEnabling(s) && Keeps(NextStateForEnabling(s), w)
  }

  /** Same effect with and without the fault-reset bit. */
  predicate AlwaysKeeps(s: InternalState, cw: Word) {
    Keeps(s, cw) && Keeps(s, cw - {CW_FAULT_RESET})
  }

  predicate AlwaysHops(s: InternalState, cw: Word) {
    Hops(s, cw) && Hops(s, cw - {CW_FAULT_RESET})
  }

  /** The slave looks at the state bits only, and the poll thread does not touch those. */
  lemma PollKeepsStateBits(cw: Word, bits: Word, reset: bool)
    ensures Stored(cw, bits) * STATE_BITS == cw * STATE_BITS
    ensures Sent(cw, bits, reset) * STATE_BITS ==
            (if reset then cw - {CW_FAULT_RESET} else cw) * STATE_BITS
  {
  }

  lemma SlaveReadsStateBits(s: InternalState, v: Word, w: Word)
    requires v * STATE_BITS == w * STATE_BITS
    ensures NextState(s, v) == NextState(s, w)
  {
    forall b: bit | b in STATE_BITS
      ensures b in v <==> b in w
    {
      assert b in v * STATE_BITS <==> b in w * STATE_BITS;
    }
  }

  lemma PollKeepsEffect(s: InternalState, cw: Word, bits: Word, reset: bool)
    ensures NextState(s, Stored(cw, bits)) == NextState(s, cw)
    ensures NextState(s, Stored(cw, bits) - {CW_FAULT_RESET}) == NextState(s, cw - {CW_FAULT_RESET})
    ensures NextState(s, Sent(cw, bits, reset)) == NextState(s, if reset then cw - {CW_FAULT_RESET} else cw)
  {
    PollKeepsStateBits(cw, bits, reset);
    PollKeepsStateBits(cw, bits, true);
    SlaveReadsStateBits(s, Stored(cw, bits), cw);
    SlaveReadsStateBits(s, Stored(cw, bits) - {CW_FAULT_RESET}, cw - {CW_FAULT_RESET});
    SlaveReadsStateBits(s, Sent(cw, bits, reset), if reset then cw - {CW_FAULT_RESET} else cw);
  }

  /** From a state with a commanded transition, setTransition makes every later word a hop word. */
  lemma ApplyHops(s: InternalState, cw: Word)
    requires s in SLAVE_STATES && s != OperationEnable
    requires s == NotReadyToSwitchOn ==> !IsShutdown(cw - {CW_FAULT_RESET})
    ensures AlwaysHops(s, SetTransition(cw, s, OperationEnable, true).cw)
  {
  }

  // ----- The invariant -----

  predicate Rising(l: Loop) {
    var next := NextStateForEnabling(l.local);
    && (l.observed == next ==> Decode(l.received) == next)
    && (Decode(l.received) == next ==> l.slave.state == next)
    && (Decode(l.received) == next ==> forall w <- l.back :: Decode(w) == next)
    && (forall i, j :: 0 <= i < j < |l.back| && Decode(l.back[i]) == next ==> Decode(l.back[j]) == next)
    && (forall w <- l.back :: Decode(w) == next ==> l.slave.state == next)
  }

  /** Where everybody is, seen from the state the switching thread acts on. */
  predicate Places(l: Loop) {
    var here := {l.local, NextStateForEnabling(l.local)};
    && l.local in SLAVE_STATES
    && Sound(l.slave) && l.slave.state in here
    && l.observed in here
    && Decode(l.received) in here
    && (forall w <- l.back :: Decode(w) in here)
    && l.slave.state == Decode(if l.back == [] then l.received else l.back[|l.back| - 1])
  }

  predicate Words(l: Loop) {
    if l.slave.state == NextStateForEnabling(l.local) then
      forall w <- l.wire :: Keeps(l.slave.state, w)
    else
      && (forall w <- l.wire :: Keeps(l.local, w) || Hops(l.local, w))
      && (forall i, j :: 0 <= i < j < |l.wire| && Hops(l.local, l.wire[i]) ==> Hops(l.local, l.wire[j]))
  }

  predicate Commanded(l: Loop) {
    if l.local == OperationEnable then
      AlwaysKeeps(OperationEnable, l.cw)
    else if l.applied then
      AlwaysHops(l.local, l.cw)
    else
      && l.local != NotReadyToSwitchOn
      && l.slave.state == l.local
      && AlwaysKeeps(l.local, l.cw)
      && forall w <- l.wire :: Keeps(l.local, w)
  }

  predicate Inv(l: Loop) {
    Places(l) && Rising(l) && Words(l) && Commanded(l)
  }

  /** Driver and slave agree, nothing in flight says otherwise, and no transition is set. */
  predicate Agreed(l: Loop) {
    && Sound(l.slave)
    && l.local == l.observed == Decode(l.received) == l.slave.state != OperationEnable
    && (forall w <- l.back :: Decode(w) == l.local)
    && (forall w <- l.wire :: Keeps(l.local, w))
    && !l.applied
  }

  /** In Not_Ready_To_Switch_On the transition leaves the word alone, so the word must not
      already be a shutdown command. */
  predicate NoStaleShutdown(l: Loop) {
    l.local == NotReadyToSwitchOn ==> !IsShutdown(l.cw - {CW_FAULT_RESET})
  }

  /** The start of the loop, from a stored word `cw`. */
  predicate InSync(l: Loop) {
    Agreed(l) && NoStaleShutdown(l)
  }

  lemma FirstTransitionEstablishes(l: Loop)
    requires InSync(l)
    ensures Inv(Next(l, Apply))
  {
    ApplyHops(l.local, l.cw);
  }

  // ----- Each step keeps it, and nobody moves back -----

  predicate Onward(l: Loop, m: Loop) {
    Rank(m.slave.state) <= Rank(l.slave.state) && Rank(m.local) <= Rank(l.local)
  }

  lemma ApplyStep(l: Loop)
    requires Inv(l)
    ensures Inv(Next(l, Apply)) && Onward(l, Next(l, Apply))
  {
    if !l.applied && l.local != OperationEnable {
      ApplyHops(l.local, l.cw);
    }
  }

  lemma WakeStep(l: Loop)
    requires Inv(l)
    ensures Inv(Next(l, Wake)) && Onward(l, Next(l, Wake))
  {
  }

  lemma PollWriteStep(l: Loop, bits: Word, reset: bool)
    requires Inv(l)
    ensures Inv(Next(l, PollWrite(bits, reset))) && Onward(l, Next(l, PollWrite(bits, reset)))
  {
    hide NextState, Show, Decode;
    var m := Next(l, PollWrite(bits, reset));
    PollKeepsEffect(l.local, l.cw, bits, reset);
    PollKeepsEffect(NextStateForEnabling(l.local), l.cw, bits, reset);
    assert forall w <- m.wire :: w in l.wire || w == Sent(l.cw, bits, reset);
    if l.slave.state != NextStateForEnabling(l.local) {
      forall i, j | 0 <= i < j < |m.wire| && Hops(l.local, m.wire[i])
        ensures Hops(l.local, m.wire[j])
      {
        assert m.wire[i] in l.wire;
        assert m.wire[j] == if j < |l.wire| then l.wire[j] else Sent(l.cw, bits, reset);
      }
    }
  }

  lemma PollReadStep(l: Loop)
    requires Inv(l)
    ensures Inv(Next(l, PollRead)) && Onward(l, Next(l, PollRead))
  {
  }

  lemma DeliverOneStep(l: Loop)
    requires Inv(l) && l.wire != []
    ensures Inv(DeliverOne(l)) && Onward(l, DeliverOne(l))
  {
    hide NextState, Show, Decode;
    var m := DeliverOne(l);
    var w := l.wire[0];
    assert w in l.wire;
    assert forall v <- m.wire :: v in l.wire;
    EventKeepsSound(l.slave, Write(w));
    assert forall v <- m.back :: v in l.back || v == m.slave.sw;
    if Hops(l.local, w) {
      assert forall i :: 0 <= i < |m.wire| ==> m.wire[i] == l.wire[i + 1];
    }
  }

  lemma {:induction false} DrainStep(l: Loop)
    requires Inv(l)
    ensures Inv(Drain(l)) && Onward(l, Drain(l)) && Drain(l).wire == []
    decreases |l.wire|
  {
    if l.wire != [] {
      DeliverOneStep(l);
      DrainStep(DeliverOne(l));
    }
  }

  lemma ArriveStep(l: Loop)
    requires Inv(l)
    ensures Inv(Next(l, Arrive)) && Onward(l, Next(l, Arrive))
  {
    hide NextState, Show, Decode;
    if l.back != [] {
      assert l.back[0] in l.back;
      assert forall w <- l.back[1..] :: w in l.back;
    }
  }

  lemma ArriveAllStep(l: Loop)
    requires Inv(l)
    ensures Inv(Next(l, ArriveAll)) && Onward(l, Next(l, ArriveAll))
  {
    hide NextState, Show, Decode;
    if l.back != [] {
      assert l.back[|l.back| - 1] in l.back;
    }
  }

  /** The slave changes without changing its state, and transmits. */
  lemma SlaveTransmits(l: Loop, s: Slave)
    requires Inv(l) && Sound(s) && s.state == l.slave.state
    ensures Inv(l.(slave := s, back := l.back + [s.sw]))
  {
    hide NextState, Show, Decode, Commanded, Words, Keeps, Hops;
    hide AlwaysKeeps, AlwaysHops;
    var m := l.(slave := s, back := l.back + [s.sw]);
    assert forall w <- m.back :: w in l.back || w == s.sw;
    CommandedSame(l, m);
  }

  lemma CommandedSame(l: Loop, m: Loop)
    requires Inv(l) && m == l.(slave := m.slave, back := m.back) && m.slave.state == l.slave.state
    ensures Commanded(m) && Words(m)
  {
    hide NextState, Places, Rising;
  }

  lemma SlaveStep(l: Loop, a: Step)
    requires Inv(l) && (a.Status? || a.Mode?) && Allowed(a)
    ensures Inv(Next(l, a)) && Onward(l, Next(l, a))
  {
    hide NextState, Show, Decode, Commanded, Words, Rising;
    var s := OnEvent(l.slave, if a.Status? then Thread(a.set_, a.clear) else SelectMode(a.m));
    EventKeepsSound(l.slave, if a.Status? then Thread(a.set_, a.clear) else SelectMode(a.m));
    SlaveTransmits(l, s);
  }

  lemma StepKeeps(l: Loop, a: Step)
    requires Inv(l) && Allowed(a)
    ensures Inv(Next(l, a)) && Onward(l, Next(l, a))
  {
    match a
    case Apply => ApplyStep(l);
    case Wake => WakeStep(l);
    case PollWrite(bits, reset) => PollWriteStep(l, bits, reset);
    case PollRead => PollReadStep(l);
    case Deliver => if l.wire != [] { DeliverOneStep(l); }
    case DeliverAll => DrainStep(l);
    case Arrive => ArriveStep(l);
    case ArriveAll => ArriveAllStep(l);
    case Status(_, _) => SlaveStep(l, a);
    case Mode(_) => SlaveStep(l, a);
  }

  // ----- Enabling is monotone under every interleaving -----

  /** The slave is in the state the switching thread acts on or one hop further, and what
      the driver observes is never ahead of the slave. */
  predicate OneHopApart(l: Loop) {
    && l.slave.state in {l.local, NextStateForEnabling(l.local)}
    && l.observed in {l.local, NextStateForEnabling(l.local)}
    && Rank(l.slave.state) <= Rank(l.observed)
  }

  lemma InvApart(l: Loop)
    requires Inv(l)
    ensures OneHopApart(l)
  {
  }

  lemma {:induction false} RunKeeps(l: Loop, steps: seq<Step>)
    requires Inv(l) && forall a <- steps :: Allowed(a)
    ensures Inv(Run(l, steps)) && Onward(l, Run(l, steps))
    decreases |steps|
  {
    if steps != [] {
      StepKeeps(l, steps[0]);
      RunKeeps(Next(l, steps[0]), steps[1..]);
    }
  }

  lemma {:induction false} RunSplit(l: Loop, first: seq<Step>, second: seq<Step>)
    ensures Run(l, first + second) == Run(Run(l, first), second)
    decreases |first|
  {
    if first == [] {
      assert first + second == second;
    } else {
      assert (first + second)[1..] == first[1..] + second;
      RunSplit(Next(l, first[0]), first[1..], second);
    }
  }

  /** For every order of polls, wake-ups, deliveries and slave activity after the first
      transition, with any number of frames in flight: driver and slave stay within one hop,
      and between any two moments of the run the slave has not moved away from Operation_Enable. */
  lemma EnablingIsMonotone(start: Loop, earlier: seq<Step>, later: seq<Step>)
    requires InSync(start) && forall a <- earlier + later :: Allowed(a)
    ensures var l := Run(Next(start, Apply), earlier);
            var m := Run(Next(start, Apply), earlier + later);
            && OneHopApart(l) && OneHopApart(m)
            && Rank(m.slave.state) <= Rank(l.slave.state) <= Rank(start.slave.state)
  {
    FirstTransitionEstablishes(start);
    var first := Next(start, Apply);
    assert forall a <- earlier :: a in earlier + later;
    assert forall a <- later :: a in earlier + later;
    RunKeeps(first, earlier);
    RunKeeps(Run(first, earlier), later);
    RunSplit(first, earlier, later);
    InvApart(Run(first, earlier));
    InvApart(Run(first, earlier + later));
  }

  /** In Not_Ready_To_Switch_On a word delivered twice takes the slave two hops just when the
      stored word is already a shutdown command, as it is sent: with or without bit 7. */
  lemma NotReadySkipsExactly(cw: Word, bits: Word, reset: bool)
    ensures var cw' := SetTransition(cw, NotReadyToSwitchOn, OperationEnable, true).cw;
            var w := Sent(cw', bits, reset);
            NextState(NextState(NotReadyToSwitchOn, w), w) == ReadyToSwitchOn <==>
            IsShutdown(if reset then cw - {CW_FAULT_RESET} else cw)
  {
    PollKeepsStateBits(cw, bits, reset);
    SlaveReadsStateBits(SwitchOnDisabled, Sent(cw, bits, reset), if reset then cw - {CW_FAULT_RESET} else cw);
  }

  /** Two poll writes of such a word, delivered, take the slave two hops. */
  lemma StaleShutdownSkips(l: Loop) returns (steps: seq<Step>)
    requires Agreed(l) && !NoStaleShutdown(l)
    ensures (forall a <- steps :: Allowed(a)) && !OneHopApart(Run(Next(l, Apply), steps))
  {
    var a := PollWrite({}, true);
    steps := [a, a, Deliver, Deliver];
    NotReadySkipsExactly(l.cw, {}, true);
    HasMember(l.wire);
    var w := Sent(l.cw, {}, true);
    var m := Next(l, Apply);
    assert m.cw == l.cw;
    SentAgain(l.cw);
    var m1 := Next(m, a);
    var m2 := Next(m1, a);
    assert m2.wire == [w, w];
    var m3 := Next(m2, Deliver);
    assert m3.wire == [w];
    RunFour(m, a, a, Deliver, Deliver);
  }

  lemma HasMember(ws: seq<Word>)
    ensures ws == [] || exists w :: w in ws
  {
    if ws != [] { assert ws[0] in ws; }
  }

  lemma SentAgain(cw: Word)
    ensures Sent(Stored(cw, {}), {}, true) == Sent(cw, {}, true)
  {
  }

  lemma RunFour(l: Loop, a: Step, b: Step, c: Step, d: Step)
    ensures Run(l, [a, b, c, d]) == Next(Next(Next(Next(l, a), b), c), d)
  {
    assert [a, b, c, d][1..] == [b, c, d] && [b, c, d][1..] == [c, d] && [c, d][1..] == [d] && [d][1..] == [];
    var m := Next(Next(Next(l, a), b), c);
    assert Run(m, [d]) == Run(Next(m, d), []);
    assert Run(Next(Next(l, a), b), [c, d]) == Run(m, [d]);
    assert Run(Next(l, a), [b, c, d]) == Run(Next(Next(l, a), b), [c, d]);
  }

  /** The condition of the start is exact: with driver and slave in agreement, they stay
      within one hop in every run after the first transition if and only if the stored word
      is not a stale shutdown command in Not_Ready_To_Switch_On. */
  lemma StaysTogetherExactly(l: Loop)
    requires Agreed(l)
    ensures (forall steps :: (forall a <- steps :: Allowed(a)) ==> OneHopApart(Run(Next(l, Apply), steps))) <==>
            NoStaleShutdown(l)
  {
    if NoStaleShutdown(l) {
      forall steps | forall a <- steps :: Allowed(a)
        ensures OneHopApart(Run(Next(l, Apply), steps))
      {
        FirstTransitionEstablishes(l);
        RunKeeps(Next(l, Apply), steps);
        InvApart(Run(Next(l, Apply), steps));
      }
    } else {
      var steps := StaleShutdownSkips(l);
    }
  }

  // ----- Enabling makes progress in every fair round -----

  /** How far the current hop has got. */
  function Stage(l: Loop): (k: nat)
    ensures k <= 5
  {
    if l.local == OperationEnable then 0
    else if l.observed != l.local then 5
    else if Decode(l.received) != l.local then 4
    else if l.slave.state != l.local then 3
    else if l.wire != [] && Hops(l.local, l.wire[|l.wire| - 1]) then 2
    else if l.applied then 1
    else 0
  }

  function Progress(l: Loop): int {
    6 * (5 - Rank(l.local)) + Stage(l)
  }

  /** The step that moves stage k on. */
  predicate Helps(k: nat, a: Step) {
    match k
    case 0 => a == Apply
    case 1 => a.PollWrite?
    case 2 => a == DeliverAll
    case 3 => a == ArriveAll
    case 4 => a == PollRead
    case 5 => a == Wake
    case _ => false
  }

  /** The steps contain, in this order and with anything in between, the ones that help
      from stage k on: a transition set, a poll write, its delivery, the status coming back,
      a poll read, and a wake-up. */
  predicate Fair(steps: seq<Step>, k: nat)
    decreases |steps|
  {
    k >= 6 || (steps != [] && Fair(steps[1..], if Helps(k, steps[0]) then k + 1 else k))
  }

  lemma PollWriteStage(l: Loop, bits: Word, reset: bool)
    requires Inv(l)
    ensures Progress(Next(l, PollWrite(bits, reset))) >= Progress(l)
  {
    PollWriteStep(l, bits, reset);
    PollKeepsEffect(l.local, l.cw, bits, reset);
    PollKeepsEffect(NextStateForEnabling(l.local), l.cw, bits, reset);
    if l.local != OperationEnable { PollWriteHops(l, bits, reset); }
  }

  lemma OwnStage(l: Loop, a: Step)
    requires Inv(l) && Allowed(a) && !a.PollWrite? && !a.Deliver? && !a.DeliverAll?
    ensures Progress(Next(l, a)) >= Progress(l)
  {
    hide NextState, Show, Decode, SetTransition;
    StepKeeps(l, a);
  }

  /** No step undoes the progress made. */
  lemma StageKept(l: Loop, a: Step)
    requires Inv(l) && Allowed(a)
    ensures Progress(Next(l, a)) >= Progress(l)
  {
    hide Inv, Stage;
    match a
    case DeliverAll => DrainStage(l);
    case Deliver => if l.wire != [] { DeliverStage(l); }
    case PollWrite(bits, reset) => PollWriteStage(l, bits, reset);
    case _ => OwnStage(l, a);
  }

  /** A poll write of a set transition puts a hop word at the end of the wire. */
  lemma PollWriteHops(l: Loop, bits: Word, reset: bool)
    requires Inv(l) && l.local != OperationEnable
    ensures l.applied ==> Hops(l.local, Sent(l.cw, bits, reset))
    ensures !l.applied ==> !(l.wire != [] && Hops(l.local, l.wire[|l.wire| - 1]))
  {
    PollKeepsEffect(l.local, l.cw, bits, reset);
    PollKeepsEffect(NextStateForEnabling(l.local), l.cw, bits, reset);
    if !l.applied && l.wire != [] {
      assert l.wire[|l.wire| - 1] in l.wire;
    }
  }

  lemma DeliverStage(l: Loop)
    requires Inv(l) && l.wire != []
    ensures Inv(DeliverOne(l)) && Stage(DeliverOne(l)) >= Stage(l)
    ensures DeliverOne(l).local == l.local && DeliverOne(l).observed == l.observed
    ensures DeliverOne(l).received == l.received
    ensures Stage(l) == 2 && |l.wire| == 1 ==> Stage(DeliverOne(l)) >= 3
  {
    DeliverOneStep(l);
  }

  lemma {:induction false} DrainStage(l: Loop)
    requires Inv(l)
    ensures Inv(Drain(l)) && Drain(l).local == l.local && Stage(Drain(l)) >= Stage(l)
    ensures Stage(l) == 2 ==> Stage(Drain(l)) >= 3
    decreases |l.wire|
  {
    if l.wire != [] {
      DeliverStage(l);
      DrainStage(DeliverOne(l));
    }
  }

  lemma OwnHelps(l: Loop, a: Step)
    requires Inv(l) && Allowed(a) && l.local != OperationEnable && Helps(Stage(l), a)
    requires !a.PollWrite? && !a.DeliverAll?
    ensures Progress(Next(l, a)) >= Progress(l) + 1
  {
    hide Show, Decode, NextState, SetTransition;
    StepKeeps(l, a);
  }

  lemma HelpfulStep(l: Loop, a: Step)
    requires Inv(l) && Allowed(a) && l.local != OperationEnable && Helps(Stage(l), a)
    ensures Progress(Next(l, a)) >= Progress(l) + 1
  {
    hide Inv, NextState, Show, Decode;
    match a
    case PollWrite(bits, reset) => PollWriteHops(l, bits, reset);
    case DeliverAll => DrainStage(l);
    case _ => OwnHelps(l, a);
  }

  /** One step of the argument: having reached stage k of hop r, the step that helps stage
      k reaches stage k + 1. */
  lemma OneHelps(l: Loop, a: Step, r: int, k: nat)
    requires Inv(l) && Allowed(a) && l.local != OperationEnable
    requires k < 6 && Progress(l) >= 6 * r + k && Helps(k, a)
    ensures Progress(Next(l, a)) >= 6 * r + k + 1
  {
    hide Next, Inv, Stage, Helps, Allowed;
    StageKept(l, a);
    if Progress(l) == 6 * r + k {
      assert Stage(l) == k;
      HelpfulStep(l, a);
    }
  }

  lemma {:induction false} FairRunProgresses(l: Loop, steps: seq<Step>, r: int, k: nat)
    requires Inv(l) && (forall a <- steps :: Allowed(a)) && Fair(steps, k)
    requires k <= 6 && Progress(l) >= 6 * r + k
    ensures Inv(Run(l, steps))
    ensures Progress(Run(l, steps)) >= 6 * r + 6 || Run(l, steps).local == OperationEnable
    decreases |steps|
  {
    if k >= 6 || l.local == OperationEnable {
      FairRunKeepsProgress(l, steps);
      RunKeeps(l, steps);
    } else {
      var a := steps[0];
      StepKeeps(l, a);
      if Helps(k, a) {
        OneHelps(l, a, r, k);
        FairRunProgresses(Next(l, a), steps[1..], r, k + 1);
      } else {
        StageKept(l, a);
        FairRunProgresses(Next(l, a), steps[1..], r, k);
      }
    }
  }

  lemma {:induction false} FairRunKeepsProgress(l: Loop, steps: seq<Step>)
    requires Inv(l) && forall a <- steps :: Allowed(a)
    ensures Inv(Run(l, steps)) && Progress(Run(l, steps)) >= Progress(l)
    decreases |steps|
  {
    if steps != [] {
      StepKeeps(l, steps[0]);
      StageKept(l, steps[0]);
      FairRunKeepsProgress(Next(l, steps[0]), steps[1..]);
    }
  }

  /** A fair round, whatever else happens in it and whatever is in flight when it starts,
      brings the switching thread at least one hop closer, unless it has arrived. */
  lemma FairRoundLowersRank(l: Loop, round: seq<Step>)
    requires Inv(l) && (forall a <- round :: Allowed(a)) && Fair(round, 0)
    ensures Inv(Run(l, round))
    ensures Rank(Run(l, round).local) <= if Rank(l.local) == 0 then 0 else Rank(l.local) - 1
  {
    FairRunProgresses(l, round, 5 - Rank(l.local), 0);
    RunKeeps(l, round);
  }

  function RunRounds(l: Loop, rounds: seq<seq<Step>>): Loop
    decreases |rounds|
  {
    if rounds == [] then l else RunRounds(Run(l, rounds[0]), rounds[1..])
  }

  /** Enabling terminates: as many fair rounds as there are hops bring driver and slave to
      Operation_Enable, and they stay there. From any state of the slave four are enough. */
  lemma {:induction false} EnablingTerminates(l: Loop, rounds: seq<seq<Step>>)
    requires Inv(l) && |rounds| >= Rank(l.local)
    requires forall r <- rounds :: Fair(r, 0) && forall a <- r :: Allowed(a)
    ensures var end := RunRounds(l, rounds);
            end.local == end.observed == end.slave.state == OperationEnable
    ensures Rank(l.local) <= 4
    decreases |rounds|
  {
    hide Fair, Allowed;
    if rounds != [] {
      assert rounds[0] in rounds;
      FairRoundLowersRank(l, rounds[0]);
      EnablingTerminates(Run(l, rounds[0]), rounds[1..]);
    }
  }
}
