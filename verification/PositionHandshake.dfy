/** The new-set-point handshake of profiled position mode, between the handler and a drive
    that latches object 0x607A on a rising new-point bit, acknowledges it, and drops the
    acknowledgement when the bit falls. Frames are in flight both ways
    (canopen_402_driver/include/canopen_402_driver/profiled_position_mode.hpp). */
module PositionHandshake {
  import opened Word16
  import opened Wrappers
  import opened State402
  import opened Command402
  import opened Modes
  import opened MotorSteps

  /** Frames towards the drive: a write of 0x607A, or a control word. */
  datatype Packet = Target(v: int) | Control(cw: Word)

  datatype Drive = Drive(target: int, newPoint: bool, ack: bool, latched: seq<int>)

  function OnPacket(d: Drive, p: Packet): Drive {
    match p
    case Target(v) => d.(target := v)
    case Control(cw) =>
      if CW_MODE0 !in cw then
        d.(newPoint := false, ack := false)
      else if d.newPoint then
        d
      else
        d.(newPoint := true, ack := true, latched := d.latched + [d.target])
  }

  function OnPackets(d: Drive, ps: seq<Packet>): Drive
    decreases |ps|
  {
    if ps == [] then d else OnPackets(OnPacket(d, ps[0]), ps[1..])
  }

  /** The status word of the drive; the other bits are anything. */
  function Status(d: Drive, others: Word): Word {
    if d.ack then others + {SW_MODE_SPECIFIC0} else others - {SW_MODE_SPECIFIC0}
  }

  /** A target the handler posted, in the how-manieth period between two starts. */
  datatype Post = Post(v: int, period: nat)

  datatype World = World(
    m: Motor,
    wire: seq<Packet>,
    drive: Drive,
    back: seq<Word>,
    received: Word,
    posted: seq<Post>,     // history: every target sent with a new-point bit
    accepted: set<int>,    // history: every target setTarget stored
    period: nat)           // history: the number of starts

  datatype Step =
    | SetTarget(val: Double)
    | LateTarget(val: Double)      // setTarget whose check of the observed state is out of date
    | Restart                      // start(): a new mode switch
    | Select(on: bool)             // switchMode drops the handler, or selects it
    | PollWrite                    // handleWrite
    | PollRead(display: int)       // readState, with a mode display
    | Turn(target: InternalState, local: InternalState)   // switchState sets a target and a transition
    | Halt
    | Recover
    | Deliver(others: Word)
    | Arrive

  /** Profiled position is registered, and no other mode is selected. */
  predicate Has(m: Motor) {
    && WellFormed(m) && PROFILED_POSITION in m.modes
    && (m.selected == None || m.selected == Some(PROFILED_POSITION))
  }

  function Handler(m: Motor): (h: Mode)
    requires Has(m)
    ensures h.Position?
  {
    assert Fitting(PROFILED_POSITION, m.modes[PROFILED_POSITION]);
    m.modes[PROFILED_POSITION]
  }

  function Packets(frame: Option<Frame>): seq<Packet> {
    if frame.Some? then [Target(frame.value.value)] else []
  }

  function DeliverOne(w: World, others: Word): World
    requires w.wire != []
  {
    var d := OnPacket(w.drive, w.wire[0]);
    w.(wire := w.wire[1..], drive := d, back := w.back + [Status(d, others)])
  }

  /** setTarget, once it has found a handler. */
  function Take(w: World, val: Double): World
    requires Has(w.m) && w.m.selected.Some?
  {
    var t := TargetFor(Handler(w.m), val);
    if t.None? then w
    else w.(m := w.m.(modes := w.m.modes[PROFILED_POSITION := TakeTarget(Handler(w.m), t.value)]),
            accepted := w.accepted + {t.value})
  }

  function Next(w: World, a: Step): World
    requires Has(w.m)
  {
    match a
    case SetTarget(val) =>
      w.(m := AfterTarget(w.m, val),
         accepted := w.accepted + var t := AcceptedTarget(w.m, val); if t.Some? then {t.value} else {})
    case LateTarget(val) => if w.m.selected.Some? then Take(w, val) else w
    case Restart => w.(m := StartHandler(w.m, PROFILED_POSITION), period := w.period + 1)
    case Select(on) => w.(m := w.m.(selected := if on then Some(PROFILED_POSITION) else None))
    case PollWrite =>
      var (m, out) := AfterWrite(w.m);
      w.(m := m, wire := w.wire + Packets(out.frame) + [Control(out.sent)],
         posted := if out.frame.Some? then w.posted + [Post(out.frame.value.value, w.period)] else w.posted)
    case PollRead(display) => w.(m := ReadDisplay(ReadStatus(w.m, w.received), w.received, display))
    case Turn(target, local) => w.(m := ApplyTransition(w.m.(targetState := target), local).0)
    case Halt => w.(m := AfterHalt(w.m).0)
    case Recover => w.(m := BeginRecover(w.m), period := w.period + if w.m.selected.Some? then 1 else 0)
    case Deliver(others) => if w.wire == [] then w else DeliverOne(w, others)
    case Arrive => if w.back == [] then w else w.(received := w.back[0], back := w.back[1..])
  }

  lemma NextHas(w: World, a: Step)
    requires Has(w.m)
    ensures Has(Next(w, a).m)
  {
    hide SetTransition, Decode, CastTarget, WriteMode;
    match a
    case PollWrite =>
      HandleWriteWellFormed(w.m);
      WriteSendsRight(w.m);
    case _ =>
  }

  function Run(w: World, steps: seq<Step>): World
    requires Has(w.m)
    decreases |steps|
  {
    if steps == [] then w else
    NextHas(w, steps[0]);
    Run(Next(w, steps[0]), steps[1..])
  }

  // ----- Nothing posted is lost, doubled or mixed up -----

  function Values(posts: seq<Post>): seq<int> {
    seq(|posts|, i requires 0 <= i < |posts| => posts[i].v)
  }

  /** What the drive will have latched when everything in flight has arrived is what the
      handler posted, and the drive's last bit is the stored one. */
  predicate Conserved(w: World) {
    var d := OnPackets(w.drive, w.wire);
    && d.latched == Values(w.posted)
    && (d.newPoint <==> CW_MODE0 in w.m.cw)
    && d.ack == d.newPoint && w.drive.ack == w.drive.newPoint
  }

  predicate Truthful(w: World) {
    && Has(w.m)
    && var h := Handler(w.m);
    && (h.hasTarget ==> h.target in w.accepted)
    && (forall p <- w.posted :: p.v in w.accepted && p.period <= w.period)
    && (h.last.Some? ==> w.posted != [] && w.posted[|w.posted| - 1] == Post(h.last.value, w.period))
    && (h.last.None? ==> w.posted == [] || w.posted[|w.posted| - 1].period < w.period)
    && (forall i :: 0 < i < |w.posted| && w.posted[i].period == w.posted[i - 1].period ==>
          w.posted[i].v != w.posted[i - 1].v)
  }

  /** The status word in the driver, or the last one under way, shows the drive's acknowledgement. */
  predicate Reported(w: World) {
    SW_MODE_SPECIFIC0 in LastStatus(w) <==> w.drive.ack
  }

  predicate Inv(w: World) {
    Truthful(w) && Conserved(w) && Reported(w)
  }

  /** A handler that has just been started, and a drive that has seen nothing yet. */
  predicate Initial(w: World) {
    && Has(w.m) && !Handler(w.m).hasTarget && Handler(w.m).last == None
    && CW_MODE0 !in w.m.cw
    && w.wire == [] && w.back == [] && SW_MODE_SPECIFIC0 !in w.received
    && !w.drive.newPoint && !w.drive.ack && w.drive.latched == []
    && w.posted == [] && w.accepted == {} && w.period == 0
  }

  lemma {:induction false} PacketsSplit(d: Drive, ps: seq<Packet>, qs: seq<Packet>)
    ensures OnPackets(d, ps + qs) == OnPackets(OnPackets(d, ps), qs)
    decreases |ps|
  {
    if ps == [] {
      assert ps + qs == qs;
    } else {
      assert (ps + qs)[1..] == ps[1..] + qs;
      PacketsSplit(OnPacket(d, ps[0]), ps[1..], qs);
    }
  }

  /** What a packet at the end of the wire adds. */
  lemma PacketAtEnd(d: Drive, ps: seq<Packet>, p: Packet)
    ensures OnPackets(d, ps + [p]) == OnPacket(OnPackets(d, ps), p)
  {
    PacketsSplit(d, ps, [p]);
    assert [p][1..] == [];
  }

  /** The handler of the displayed mode is asked. */
  predicate Asked(m: Motor) {
    m.observed == OperationEnable && m.selected == Some(PROFILED_POSITION) && m.displayed == PROFILED_POSITION
  }

  /** When handleWrite posts, and what it leaves otherwise. */
  lemma WriteCases(m: Motor)
    requires Has(m)
    ensures var (m', out) := AfterWrite(m);
            && Has(m')
            && var h, h' := Handler(m), Handler(m');
            && h'.hasTarget == h.hasTarget && h'.target == h.target && h'.sw == h.sw
            && (CW_MODE0 in out.sent <==> CW_MODE0 in m'.cw)
            && (out.frame.Some? ==>
                  && h.hasTarget && h.last != Some(h.target) && CW_MODE0 !in m.cw
                  && out.frame.value.value == h.target && h'.last == Some(h.target) && CW_MODE0 in m'.cw)
            && (out.frame.None? ==> h' == h && (CW_MODE0 in m'.cw ==> CW_MODE0 in m.cw))
            && (Asked(m) && h.hasTarget ==>
                  && (out.frame.Some? <== SW_MODE_SPECIFIC0 !in h.sw && h.last != Some(h.target) && CW_MODE0 !in m.cw)
                  && (SW_MODE_SPECIFIC0 in h.sw || (h.last != Some(h.target) && CW_MODE0 in m.cw) ==>
                        CW_MODE0 !in m'.cw))
  {
    hide AfterWrite, WriteMode;
    HandleWriteWellFormed(m);
    HandleWriteOwnsPollBits(m);
    WriteSendsRight(m);
  }

  lemma PollWriteKeepsConserved(w: World)
    requires Inv(w)
    ensures Conserved(Next(w, PollWrite))
  {
    WriteCases(w.m);
    hide AfterWrite, Truthful, Reported;
    var (m, out) := AfterWrite(w.m);
    var w' := Next(w, PollWrite);
    if out.frame.Some? {
      var v := out.frame.value.value;
      PacketAtEnd(w.drive, w.wire, Target(v));
      PacketAtEnd(w.drive, w.wire + [Target(v)], Control(out.sent));
      assert w'.wire == w.wire + [Target(v)] + [Control(out.sent)];
      assert Values(w'.posted) == Values(w.posted) + [v];
    } else {
      assert w'.wire == w.wire + [Control(out.sent)];
      PacketAtEnd(w.drive, w.wire, Control(out.sent));
      assert w'.posted == w.posted;
    }
  }

  lemma PollWriteKeeps(w: World)
    requires Inv(w)
    ensures Inv(Next(w, PollWrite))
  {
    PollWriteKeepsConserved(w);
    WriteCases(w.m);
    hide AfterWrite, Conserved;
  }

  /** A step of the motor alone that leaves the handler's targets and the new-point bit. */
  lemma MotorAlone(w: World, m: Motor)
    requires Inv(w) && Has(m)
    requires Handler(m) == Handler(w.m).(sw := Handler(m).sw) && (CW_MODE0 in m.cw <==> CW_MODE0 in w.m.cw)
    ensures Inv(w.(m := m))
  {
    hide OnPackets, Has, Values;
  }

  /** A start of the handler begins a new period. */
  lemma StartAlone(w: World, m: Motor)
    requires Inv(w) && Has(m) && Handler(m) == StartMode(Handler(w.m)) && m.cw == w.m.cw
    ensures Inv(w.(m := m, period := w.period + 1))
  {
    hide OnPackets, Has, Values;
  }

  lemma TransitionKeepsBit(cw: Word, from: InternalState, to: InternalState, wantNext: bool)
    ensures CW_MODE0 in SetTransition(cw, from, to, wantNext).cw <==> CW_MODE0 in cw
  {
    var cw' := SetTransition(cw, from, to, wantNext).cw;
    TransitionOwnsStateBits(cw, from, to, wantNext);
    assert CW_MODE0 in cw' - STATE_BITS <==> CW_MODE0 in cw';
    assert CW_MODE0 in cw - STATE_BITS <==> CW_MODE0 in cw;
    hide SetTransition;
  }

  lemma OwnKeeps(w: World, a: Step)
    requires Inv(w) && Has(w.m) && (a.Turn? || a.Halt? || a.Recover? || a.Select? || a.PollRead? || a.Restart?)
    ensures Inv(Next(w, a))
  {
    hide Inv, SetTransition, Decode, WellFormed;
    NextHas(w, a);
    match a
    case Turn(target, local) =>
      TransitionKeepsBit(w.m.cw, local, target, true);
      MotorAlone(w, Next(w, a).m);
    case Halt =>
      TransitionKeepsBit(w.m.cw, w.m.observed, QuickStopActive, false);
      MotorAlone(w, Next(w, a).m);
    case Recover =>
      if w.m.selected.Some? {
        StartAlone(w, Next(w, a).m);
      } else {
        MotorAlone(w, Next(w, a).m);
      }
    case Restart => StartAlone(w, Next(w, a).m);
    case Select(_) => MotorAlone(w, Next(w, a).m);
    case PollRead(_) => MotorAlone(w, Next(w, a).m);
    case _ =>
  }

  lemma StepKeeps(w: World, a: Step)
    requires Inv(w)
    ensures Inv(Next(w, a))
  {
    NextHas(w, a);
    match a
    case PollWrite => PollWriteKeeps(w);
    case SetTarget(val) =>
    case LateTarget(val) =>
    case Deliver(others) =>
    case Arrive =>
    case _ => OwnKeeps(w, a);
  }

  lemma {:induction false} RunKeeps(w: World, steps: seq<Step>)
    requires Inv(w)
    ensures Inv(Run(w, steps))
    decreases |steps|
  {
    if steps != [] {
      StepKeeps(w, steps[0]);
      RunKeeps(Next(w, steps[0]), steps[1..]);
    }
  }

  /** In every run, with any delays: the drive has latched exactly the first so many of the
      posted targets, in order, each once; every one of them was accepted by setTarget; and
      two in a row from the same period differ. */
  lemma LatchedArePosted(start: World, steps: seq<Step>)
    requires Initial(start)
    ensures var w := Run(start, steps);
            && w.drive.latched <= Values(w.posted)
            && (w.wire == [] ==> w.drive.latched == Values(w.posted))
            && (forall v <- w.drive.latched :: v in w.accepted)
            && (forall i :: 0 < i < |w.drive.latched| && w.posted[i].period == w.posted[i - 1].period ==>
                  w.drive.latched[i] != w.drive.latched[i - 1])
  {
    RunKeeps(start, steps);
    var w := Run(start, steps);
    LatchedGrows(w.drive, w.wire);
    forall i | 0 <= i < |w.drive.latched|
      ensures w.drive.latched[i] == w.posted[i].v
    {
      assert w.drive.latched[i] == Values(w.posted)[i];
    }
  }

  lemma {:induction false} LatchedGrows(d: Drive, ps: seq<Packet>)
    ensures d.latched <= OnPackets(d, ps).latched
    decreases |ps|
  {
    if ps != [] {
      LatchedGrows(OnPacket(d, ps[0]), ps[1..]);
    }
  }

  // ----- A target held constant is latched -----

  /** The status bits of an enabled drive. */
  const ENABLED: Word := {SW_READY_TO_SWITCH_ON, SW_SWITCHED_ON, SW_OPERATION_ENABLED, SW_QUICK_STOP}

  function LastStatus(w: World): Word {
    if w.back == [] then w.received else w.back[|w.back| - 1]
  }

  /** Nothing disturbs: the mode is selected, and the drive reports that it is enabled. */
  predicate Quiet(w: World) {
    Has(w.m) && w.m.selected == Some(PROFILED_POSITION) && Decode(LastStatus(w)) == OperationEnable
  }

  function DrainWire(w: World): World
    decreases |w.wire|
  {
    if w.wire == [] then w else DrainWire(DeliverOne(w, ENABLED))
  }

  /** The last status word on its way arrives, and those before it have passed. */
  function TakeLast(w: World): World {
    w.(received := LastStatus(w), back := [])
  }

  lemma {:induction false} DrainKeepsMotor(w: World)
    ensures DrainWire(w).m == w.m
    decreases |w.wire|
  {
    if w.wire != [] {
      DrainKeepsMotor(DeliverOne(w, ENABLED));
    }
  }

  /** A round up to its write: everything has arrived and has been read, with the mode displayed. */
  function Settled(w: World): (s: World)
    requires Has(w.m)
    ensures Has(s.m)
  {
    DrainKeepsMotor(w);
    var r := TakeLast(DrainWire(w));
    NextHas(r, PollRead(PROFILED_POSITION));
    Next(r, PollRead(PROFILED_POSITION))
  }

  /** One undisturbed poll round: everything in flight arrives, the poll reads and writes,
      and what it wrote arrives. */
  function Round(w: World): (r: World)
    requires Has(w.m)
    ensures Has(r.m)
  {
    NextHas(Settled(w), PollWrite);
    DrainKeepsMotor(Next(Settled(w), PollWrite));
    DrainWire(Next(Settled(w), PollWrite))
  }

  lemma EnabledShows(d: Drive)
    ensures Decode(Status(d, ENABLED)) == OperationEnable
  {
  }

  lemma {:induction false} DrainKeeps(w: World)
    requires Inv(w) && Quiet(w)
    ensures Inv(DrainWire(w)) && DrainWire(w).wire == [] && Quiet(DrainWire(w))
    ensures DrainWire(w).m == w.m && DrainWire(w).posted == w.posted
    decreases |w.wire|
  {
    hide Has, Decode, Truthful, Conserved, Reported, Status;
    if w.wire != [] {
      StepKeeps(w, Deliver(ENABLED));
      EnabledShows(OnPacket(w.drive, w.wire[0]));
      DrainKeeps(DeliverOne(w, ENABLED));
    }
  }

  lemma TakeLastKeeps(w: World)
    requires Inv(w) && Quiet(w)
    ensures Inv(TakeLast(w)) && Quiet(TakeLast(w))
  {
    hide OnPackets, Values;
  }

  /** With nothing on the wire the drive's acknowledgement is the stored new-point bit. */
  lemma EmptyWire(w: World)
    requires Inv(w) && w.wire == []
    ensures w.drive.ack <==> CW_MODE0 in w.m.cw
  {
    assert OnPackets(w.drive, []) == w.drive;
  }

  lemma SettledKnowsAck(w: World)
    requires Inv(w) && Quiet(w)
    ensures var s := Settled(w);
            && Inv(s) && s.wire == [] && Quiet(s) && Asked(s.m)
            && Handler(s.m) == Handler(w.m).(sw := Handler(s.m).sw) && s.m.cw == w.m.cw
            && (SW_MODE_SPECIFIC0 in Handler(s.m).sw <==> CW_MODE0 in s.m.cw)
  {
    DrainKeeps(w);
    var r := TakeLast(DrainWire(w));
    TakeLastKeeps(DrainWire(w));
    EmptyWire(r);
    StepKeeps(r, PollRead(PROFILED_POSITION));
    hide DrainWire, Truthful, Conserved, Decode;
  }

  lemma PollWriteStaysQuiet(w: World)
    requires Inv(w) && Quiet(w)
    ensures Inv(Next(w, PollWrite)) && Quiet(Next(w, PollWrite))
  {
    StepKeeps(w, PollWrite);
    HandleWriteOwnsPollBits(w.m);
    hide AfterWrite, Decode;
  }

  /** A round keeps what has been posted, posts when the bit is down, and takes it down otherwise. */
  lemma RoundMoves(w: World)
    requires Inv(w) && Quiet(w) && Handler(w.m).hasTarget
    ensures var r := Round(w);
            && Inv(r) && r.wire == [] && Quiet(r)
            && var h, t := Handler(r.m), Handler(w.m).target;
            && h.hasTarget && h.target == t
            && (h.last == Some(t) || CW_MODE0 !in r.m.cw)
            && (Handler(w.m).last == Some(t) || CW_MODE0 !in w.m.cw ==> h.last == Some(t))
  {
    var s := Settled(w);
    SettledKnowsAck(w);
    PollWriteStaysQuiet(s);
    WriteCases(s.m);
    DrainKeeps(Next(s, PollWrite));
    assert Round(w) == DrainWire(Next(s, PollWrite));
    hide Truthful, Conserved, Reported, DrainWire, AfterWrite, Settled;
  }

  /** From anywhere in any run with the mode selected and the drive enabled, two rounds with a
      constant target make it the value the drive latched last. */
  lemma LatchedWithinTwoRounds(w: World)
    requires Inv(w) && Quiet(w) && Handler(w.m).hasTarget
    ensures var d := Round(Round(w)).drive;
            d.latched != [] && d.latched[|d.latched| - 1] == Handler(w.m).target
  {
    hide Round, Quiet, Reported, Has;
    RoundMoves(w);
    RoundMoves(Round(w));
    var end := Round(Round(w));
    assert Handler(end.m).last == Some(Handler(w.m).target);
    assert OnPackets(end.drive, []) == end.drive;
    assert end.drive.latched == Values(end.posted);
  }
}
