/** Runs of a motor: the poll timer, any number of switchMode calls, state switches, service
    calls and homing take their critical sections in any order
    (canopen_402_driver/src/motor.cpp). */
module MotorRuns {
  import opened Word16
  import opened Wrappers
  import opened State402
  import opened Command402
  import opened Modes
  import opened MotorSteps

  /** What a handler has been told, in order of time. */
  datatype Event =
    | Started(id: int)
    | TargetTaken(id: int, val: Double)   // setTarget succeeded with this value
    | HomingBegan
    | HomingEnded

  /** Where a call of switchMode is. */
  datatype Pc =
    | Idle
    | StartedMode(mode: int)     // start() has returned
    | Off(mode: int)             // the handler is dropped; switching to switching_state_
    | Requested(mode: int)       // 0x6060 is written; waiting for the display
    | On(mode: int, okay: bool)  // decided; switching back to Operation_Enable
    | Done(mode: int, ok: bool)

  datatype World = World(m: Motor, calls: map<nat, Pc>, history: seq<Event>, switching: InternalState)

  function At(w: World, t: nat): Pc {
    if t in w.calls then w.calls[t] else Idle
  }

  function Move(w: World, t: nat, p: Pc): World {
    w.(calls := w.calls[t := p])
  }

  datatype Action =
    | PollStatus(sw: Word)
    | PollDisplay(sw: Word, display: int)
    | PollWrite
    | Target(val: Double)
    | LateTarget(val: Double)         // setTarget whose check of the observed state is out of date
    | Halt
    | Recover
    | Init                            // handleInit zeroes the control word and asks for a fault reset
    | Transition(from: InternalState, to: InternalState)   // one turn of a switchState loop
    | Register(id: int, handler: Mode)  // an allocator inserts a new handler, flags unset
    | BeginHoming
    | EndHoming
    | Begin(t: nat, mode: int)        // call t of switchMode up to the return of start()
    | Drop(t: nat)                    // its first lock
    | ReachedOff(t: nat, ok: bool)    // switchState(switching_state_) returns; ok: before its deadline
    | DecideMode(t: nat)              // the wait ends, by a match or by the deadline
    | ReachedOn(t: nat, ok: bool)     // switchState(Operation_Enable) returns
    | ToNoMode                        // switchMode(No_Mode)

  predicate Allowed(a: Action) {
    a.Register? ==> Fitting(a.id, a.handler)
  }

  function Started1(w: World, id: int): World
    requires id in w.m.modes
  {
    w.(m := StartHandler(w.m, id), history := w.history + [Started(id)])
  }

  function Take(w: World, val: Double): World
    requires WellFormed(w.m) && w.m.selected.Some?
  {
    var id := w.m.selected.value;
    var t := TargetFor(w.m.modes[id], val);
    if t.None? then w else
    w.(m := w.m.(modes := w.m.modes[id := TakeTarget(w.m.modes[id], t.value)]),
       history := w.history + [TargetTaken(id, val)])
  }

  function SetExecute(w: World, on: bool): World {
    if HOMING in w.m.modes && w.m.modes[HOMING].Homing? then
      w.(m := w.m.(modes := w.m.modes[HOMING := Homing(on, w.m.modes[HOMING].status)]),
         history := w.history + [if on then HomingBegan else HomingEnded])
    else w
  }

  // The critical sections of a call of switchMode; one that is not at that point does nothing.

  function DropHandler(w: World, t: nat): World {
    match At(w, t)
    case StartedMode(mode) =>
      var (m, already) := Deselect(w.m, mode);
      Move(w.(m := m), t, if already then Done(mode, true) else Off(mode))
    case _ => w
  }

  function AskForMode(w: World, t: nat, ok: bool): World {
    match At(w, t)
    case Off(mode) =>
      if ok && w.m.observed == w.switching then Move(w.(m := Request(w.m, mode)), t, Requested(mode))
      else Move(w, t, Done(mode, false))
    case _ => w
  }

  function Choose(w: World, t: nat): World {
    match At(w, t)
    case Requested(mode) =>
      var (m, okay) := Decide(w.m, mode);
      Move(w.(m := m), t, On(mode, okay))
    case _ => w
  }

  function Return(w: World, t: nat, ok: bool): World {
    match At(w, t)
    case On(mode, okay) => Move(w, t, Done(mode, ok && w.m.observed == OperationEnable && okay))
    case _ => w
  }

  function Next(w: World, a: Action): World
    requires WellFormed(w.m)
  {
    match a
    case PollStatus(sw) => w.(m := ReadStatus(w.m, sw))
    case PollDisplay(sw, display) => w.(m := ReadDisplay(w.m, sw, display))
    case PollWrite => w.(m := AfterWrite(w.m).0)
    case Target(val) => if AcceptedTarget(w.m, val).Some? then Take(w, val) else w
    case LateTarget(val) => if w.m.selected.Some? then Take(w, val) else w
    case Halt => w.(m := AfterHalt(w.m).0)
    case Recover =>
      var w1 := w.(m := w.m.(faultReset := true));
      if w.m.selected.Some? then Started1(w1, w.m.selected.value) else w1
    case Init => w.(m := BeginInit(w.m))
    case Transition(from, to) => w.(m := w.m.(cw := SetTransition(w.m.cw, from, to, true).cw))
    case Register(id, handler) => if id in w.m.modes then w else w.(m := w.m.(modes := w.m.modes[id := handler]))
    case BeginHoming => SetExecute(w, true)
    case EndHoming => SetExecute(w, false)
    case Begin(t, mode) =>
      if (At(w, t).Idle? || At(w, t).Done?) && mode in w.m.modes && mode != NO_MODE
      then Move(Started1(w, mode), t, StartedMode(mode)) else w
    case Drop(t) => DropHandler(w, t)
    case ReachedOff(t, ok) => AskForMode(w, t, ok)
    case DecideMode(t) => Choose(w, t)
    case ReachedOn(t, ok) => Return(w, t, ok)
    case ToNoMode => w.(m := w.m.(selected := None, opMode := NO_MODE))
  }

  /** The actions are the sections of the motor: setTarget notes the value just when the motor
      takes it, recovering notes the start of the selected handler. */
  lemma ActionsAreSections(w: World, val: Double)
    requires WellFormed(w.m)
    ensures Next(w, Target(val)).m == AfterTarget(w.m, val)
    ensures Next(w, Target(val)).history ==
            w.history + if AcceptedTarget(w.m, val).Some? then [TargetTaken(w.m.selected.value, val)] else []
    ensures w.m.observed == OperationEnable ==> Next(w, LateTarget(val)) == Next(w, Target(val))
    ensures Next(w, Recover).m == BeginRecover(w.m)
    ensures Next(w, Recover).history == w.history + if w.m.selected.Some? then [Started(w.m.selected.value)] else []
  {
    hide TargetFor, TakeTarget, StartMode, Fitting;
  }

  /** What the last word on handler id is: None when it was started last. */
  function LastTarget(h: seq<Event>, id: int): Option<Double>
    decreases |h|
  {
    if h == [] then None else
    match h[|h| - 1]
    case TargetTaken(i, val) => if i == id then Some(val) else LastTarget(h[..|h| - 1], id)
    case Started(i) => if i == id then None else LastTarget(h[..|h| - 1], id)
    case _ => LastTarget(h[..|h| - 1], id)
  }

  predicate HomingRuns(h: seq<Event>)
    decreases |h|
  {
    if h == [] then false else
    match h[|h| - 1]
    case HomingBegan => true
    case HomingEnded => false
    case Started(i) => if i == HOMING then false else HomingRuns(h[..|h| - 1])
    case _ => HomingRuns(h[..|h| - 1])
  }

  /** A handler that was ever started is armed by its history alone. */
  predicate Faithful(id: int, mode: Mode, h: seq<Event>) {
    if mode.Homing? then
      mode.execute == HomingRuns(h)
    else
      && mode.hasTarget == LastTarget(h, id).Some?
      && (mode.hasTarget ==> TargetFor(mode, LastTarget(h, id).value) == Some(mode.target))
  }

  ghost predicate Remembering(w: World) {
    && (w.m.selected.Some? ==> Started(w.m.selected.value) in w.history)
    && (forall t <- w.calls :: !w.calls[t].Idle? ==> Started(w.calls[t].mode) in w.history)
    && forall id <- w.m.modes :: Started(id) in w.history ==> Faithful(id, w.m.modes[id], w.history)
  }

  /** No event names a handler that is not registered. */
  ghost predicate Registered(w: World) {
    forall id :: Started(id) in w.history ==> id in w.m.modes
  }

  ghost predicate Inv(w: World) {
    WellFormed(w.m) && Registered(w) && Remembering(w)
  }

  lemma EventForAll(h: seq<Event>, e: Event)
    ensures forall id :: LastTarget(h + [e], id) ==
                         match e
                         case TargetTaken(i, val) => if i == id then Some(val) else LastTarget(h, id)
                         case Started(i) => if i == id then None else LastTarget(h, id)
                         case _ => LastTarget(h, id)
    ensures HomingRuns(h + [e]) ==
            match e
            case HomingBegan => true
            case HomingEnded => false
            case Started(i) => if i == HOMING then false else HomingRuns(h)
            case _ => HomingRuns(h)
  {
  }

  lemma StartKeeps(w: World, id: int)
    requires Inv(w) && id in w.m.modes
    ensures Inv(Started1(w, id))
  {
    EventForAll(w.history, Started(id));
  }

  lemma TakeKeeps(w: World, val: Double)
    requires Inv(w) && w.m.selected.Some?
    ensures Inv(Take(w, val))
  {
    EventForAll(w.history, TargetTaken(w.m.selected.value, val));
  }

  lemma ExecuteKeeps(w: World, on: bool)
    requires Inv(w)
    ensures Inv(SetExecute(w, on))
  {
    EventForAll(w.history, if on then HomingBegan else HomingEnded);
  }

  /** A poll write changes no target and no flag of a handler. */
  lemma WriteKeeps(w: World)
    requires Inv(w)
    ensures Inv(Next(w, PollWrite))
  {
    HandleWriteWellFormed(w.m);
    HandleWriteOwnsPollBits(w.m);
  }

  lemma ReadsKeep(w: World, a: Action)
    requires Inv(w) && (a.PollStatus? || a.PollDisplay? || a.Halt? || a.Init? || a.Transition?)
    ensures Inv(Next(w, a))
  {
  }

  lemma OwnStepKeeps(w: World, a: Action)
    requires Inv(w) && (a.Drop? || a.ReachedOff? || a.DecideMode? || a.ReachedOn? || a.ToNoMode?)
    ensures Inv(Next(w, a))
  {
  }

  lemma RegisterKeeps(w: World, a: Action)
    requires Inv(w) && Allowed(a) && a.Register?
    ensures Inv(Next(w, a))
  {
  }

  lemma StepKeeps(w: World, a: Action)
    requires Inv(w) && Allowed(a)
    ensures Inv(Next(w, a))
  {
    match a
    case PollWrite => WriteKeeps(w);
    case Target(val) => if AcceptedTarget(w.m, val).Some? { TakeKeeps(w, val); }
    case LateTarget(val) => if w.m.selected.Some? { TakeKeeps(w, val); }
    case Recover =>
      var w1 := w.(m := w.m.(faultReset := true));
      if w.m.selected.Some? { StartKeeps(w1, w.m.selected.value); }
    case BeginHoming => ExecuteKeeps(w, true);
    case EndHoming => ExecuteKeeps(w, false);
    case Begin(t, mode) => if mode in w.m.modes { StartKeeps(w, mode); }
    case Register(_, _) => RegisterKeeps(w, a);
    case PollStatus(_) => ReadsKeep(w, a);
    case PollDisplay(_, _) => ReadsKeep(w, a);
    case Halt => ReadsKeep(w, a);
    case Init => ReadsKeep(w, a);
    case Transition(_, _) => ReadsKeep(w, a);
    case _ => OwnStepKeeps(w, a);
  }

  ghost function Run(w: World, actions: seq<Action>): World
    requires Inv(w) && forall a <- actions :: Allowed(a)
    decreases |actions|
  {
    if actions == [] then w else
    StepKeeps(w, actions[0]);
    Run(Next(w, actions[0]), actions[1..])
  }

  /** The invariant holds after every run. */
  lemma {:induction false} RunKeeps(w: World, actions: seq<Action>)
    requires Inv(w) && forall a <- actions :: Allowed(a)
    ensures Inv(Run(w, actions))
    decreases |actions|
  {
    hide Next, Registered, Remembering;
    if actions != [] {
      StepKeeps(w, actions[0]);
      RunKeeps(Next(w, actions[0]), actions[1..]);
    }
  }

  /** A motor before its first use: nothing selected, nothing registered. */
  predicate Initial(w: World) {
    w.m.selected == None && w.m.modes == map[] && w.calls == map[] && w.history == []
  }

  /** No motion without a command. In every run, with any number of concurrent mode switches,
      the next control word sent has Halt clear exactly when the drive is observed in
      Operation_Enable, the selected mode is the displayed one, and since its handler was last
      started a target has been accepted for it, or for homing, homing has begun and not ended.
      A value sent along is the last accepted target. */
  lemma NoMotionWithoutCommand(start: World, actions: seq<Action>)
    requires Initial(start) && forall a <- actions :: Allowed(a)
    ensures Inv(start) && Inv(Run(start, actions))
    ensures var w := Run(start, actions);
            var (m', out) := AfterWrite(w.m);
            && (CW_HALT !in out.sent <==>
                 && w.m.observed == OperationEnable
                 && w.m.selected == Some(w.m.displayed)
                 && (if w.m.displayed == HOMING then HomingRuns(w.history)
                     else LastTarget(w.history, w.m.displayed).Some?))
            && (out.frame.Some? ==>
                 && CW_HALT !in out.sent
                 && LastTarget(w.history, w.m.displayed).Some?
                 && TargetFor(w.m.modes[w.m.displayed], LastTarget(w.history, w.m.displayed).value) ==
                    Some(out.frame.value.value))
  {
    RunKeeps(start, actions);
    var w := Run(start, actions);
    HaltClearExactly(w.m);
    if Matches(w.m) {
      assert Fitting(w.m.displayed, w.m.modes[w.m.displayed]);
      WriteNeedsArmed(w.m.modes[w.m.displayed], w.m.cw + {CW_HALT});
      assert ForwardingOf(HOMING).None?;
    }
  }

  // ----- switchMode under interference -----

  /** The steps that write the selection or the mode asked for. */
  predicate Touches(a: Action) {
    a.Drop? || a.ReachedOff? || a.DecideMode? || a.ToNoMode?
  }

  predicate ByCall(a: Action, t: nat) {
    (a.Begin? || a.Drop? || a.ReachedOff? || a.DecideMode? || a.ReachedOn?) && a.t == t
  }

  predicate NoDecision(actions: seq<Action>) {
    forall a <- actions :: Allowed(a) && !a.DecideMode?
  }

  lemma StepStaysDeselected(w: World, a: Action)
    requires Inv(w) && Allowed(a) && !a.DecideMode? && w.m.selected == None
    ensures Next(w, a).m.selected == None
  {
    hide Registered, Remembering, Decode, SetTransition, Fitting;
    HandleWriteOwnsPollBits(w.m);
  }

  lemma {:induction false} StaysDeselected(w: World, actions: seq<Action>)
    requires Inv(w) && NoDecision(actions) && w.m.selected == None
    ensures Inv(Run(w, actions)) && Run(w, actions).m.selected == None
    decreases |actions|
  {
    hide Registered, Remembering, Next, Fitting;
    if actions != [] {
      assert Allowed(actions[0]) && !actions[0].DecideMode?;
      StepKeeps(w, actions[0]);
      StepStaysDeselected(w, actions[0]);
      StaysDeselected(Next(w, actions[0]), actions[1..]);
    }
  }

  /** From the drop of the old handler on, until some call of switchMode decides, every word
      sent while the drive is observed enabled has Halt set and no mode bit. */
  lemma SilentWhileSwitching(w: World, t: nat, actions: seq<Action>)
    requires Inv(w) && At(w, t).StartedMode? && NoDecision(actions)
    requires !(w.m.displayed == At(w, t).mode && w.m.selected == Some(w.m.displayed))
    ensures Inv(Next(w, Drop(t)))
    ensures Inv(Run(Next(w, Drop(t)), actions))
    ensures var m := Run(Next(w, Drop(t)), actions).m;
            var sent := AfterWrite(m).1.sent;
            m.observed == OperationEnable ==> CW_HALT in sent && sent * MODE_BITS == {}
  {
    StepKeeps(w, Drop(t));
    StaysDeselected(Next(w, Drop(t)), actions);
    var m := Run(Next(w, Drop(t)), actions).m;
    if m.observed == OperationEnable { NothingSelected(m); }
  }

  lemma NothingSelected(m: Motor)
    requires WellFormed(m) && m.selected == None && m.observed == OperationEnable
    ensures var sent := AfterWrite(m).1.sent; CW_HALT in sent && sent * MODE_BITS == {}
  {
    assert CW_HALT in Assign(MODE_BITS, m.cw + {CW_HALT}, {});
  }

  /** Same selection, mode asked for and switching state. */
  predicate SameChoice(w: World, w': World) {
    w'.switching == w.switching && w'.m.selected == w.m.selected && w'.m.opMode == w.m.opMode
  }

  /** Anything but the steps of call t itself. */
  predicate ByOthers(t: nat, actions: seq<Action>) {
    forall a <- actions :: Allowed(a) && !ByCall(a, t)
  }

  lemma OtherKeepsCall(w: World, t: nat, a: Action)
    requires Inv(w) && Allowed(a) && !ByCall(a, t)
    ensures var w' := Next(w, a); At(w', t) == At(w, t) && w'.switching == w.switching
  {
    hide Registered, Remembering, Decode, SetTransition, Fitting;
  }

  lemma {:induction false} OthersKeepCall(w: World, t: nat, actions: seq<Action>)
    requires Inv(w) && ByOthers(t, actions)
    ensures var w' := Run(w, actions); Inv(w') && At(w', t) == At(w, t) && w'.switching == w.switching
    decreases |actions|
  {
    hide Registered, Remembering, Next, Fitting;
    if actions != [] {
      assert Allowed(actions[0]) && !ByCall(actions[0], t);
      StepKeeps(w, actions[0]);
      OtherKeepsCall(w, t, actions[0]);
      OthersKeepCall(Next(w, actions[0]), t, actions[1..]);
    }
  }

  /** The moments of a switchMode call: at its first lock, when its first state switch returns,
      before and after its decision, when its second state switch returns, and after its end. */
  datatype Moments = Moments(atDrop: World, atOff: World, atDecision: World, decided: World, atOn: World, end: World)

  /** A complete call t, with anything else, other calls included, between its critical sections. */
  ghost function SwitchMode(w: World, t: nat, mode: int, off: bool, on: bool, x1: seq<Action>, x2: seq<Action>,
                            x3: seq<Action>, x4: seq<Action>): (c: Moments)
    requires Inv(w) && ByOthers(t, x1) && ByOthers(t, x2) && ByOthers(t, x3) && ByOthers(t, x4)
    ensures Inv(c.atDrop) && Inv(c.atDecision) && Inv(c.decided) && Inv(c.atOn)
    ensures c.atOn == Run(c.decided, x4) && c.end == Next(c.atOn, ReachedOn(t, on))
  {
    StepKeeps(w, Begin(t, mode));
    RunKeeps(Next(w, Begin(t, mode)), x1);
    var atDrop := Run(Next(w, Begin(t, mode)), x1);
    StepKeeps(atDrop, Drop(t));
    RunKeeps(Next(atDrop, Drop(t)), x2);
    var atOff := Run(Next(atDrop, Drop(t)), x2);
    StepKeeps(atOff, ReachedOff(t, off));
    RunKeeps(Next(atOff, ReachedOff(t, off)), x3);
    var atDecision := Run(Next(atOff, ReachedOff(t, off)), x3);
    StepKeeps(atDecision, DecideMode(t));
    var decided := Next(atDecision, DecideMode(t));
    RunKeeps(decided, x4);
    var atOn := Run(decided, x4);
    Moments(atDrop, atOff, atDecision, decided, atOn, Next(atOn, ReachedOn(t, on)))
  }

  // The critical sections of a call, each followed by what others do.

  lemma BeginPhase(w: World, t: nat, mode: int, x: seq<Action>)
    requires Inv(w) && (At(w, t).Idle? || At(w, t).Done?) && mode in w.m.modes && mode != NO_MODE && ByOthers(t, x)
    ensures Inv(Next(w, Begin(t, mode))) && SameChoice(w, Next(w, Begin(t, mode)))
    ensures var w' := Run(Next(w, Begin(t, mode)), x);
            Inv(w') && At(w', t) == StartedMode(mode) && w'.switching == w.switching
  {
    hide Registered, Remembering, Run;
    StepKeeps(w, Begin(t, mode));
    OthersKeepCall(Next(w, Begin(t, mode)), t, x);
  }

  lemma DropPhase(w: World, t: nat, x: seq<Action>)
    requires Inv(w) && At(w, t).StartedMode? && ByOthers(t, x)
    ensures var d := Next(w, Drop(t));
            var w' := Run(d, x);
            var mode := At(w, t).mode;
            && Inv(d) && d.switching == w.switching && d.m.opMode == w.m.opMode
            && Inv(w') && w'.switching == w.switching
            && if w.m.displayed == mode && w.m.selected == Some(mode) then
                 At(w', t) == Done(mode, true) && d.m.selected == w.m.selected
               else At(w', t) == Off(mode) && d.m.selected == None
  {
    hide Registered, Remembering, Run;
    StepKeeps(w, Drop(t));
    OthersKeepCall(Next(w, Drop(t)), t, x);
  }

  lemma OffPhase(w: World, t: nat, ok: bool, x: seq<Action>)
    requires Inv(w) && ByOthers(t, x)
    ensures var d := Next(w, ReachedOff(t, ok));
            var w' := Run(d, x);
            && Inv(d) && d.switching == w.switching && d.m.selected == w.m.selected
            && Inv(w') && w'.switching == w.switching
            && if !At(w, t).Off? then At(w', t) == At(w, t) && SameChoice(w, d)
               else if ok && w.m.observed == w.switching then
                 At(w', t) == Requested(At(w, t).mode) && d.m.opMode == At(w, t).mode
               else At(w', t) == Done(At(w, t).mode, false) && SameChoice(w, d)
  {
    hide Registered, Remembering, Run;
    StepKeeps(w, ReachedOff(t, ok));
    OthersKeepCall(Next(w, ReachedOff(t, ok)), t, x);
  }

  lemma DecidePhase(w: World, t: nat, x: seq<Action>)
    requires Inv(w) && ByOthers(t, x)
    ensures var d := Next(w, DecideMode(t));
            var w' := Run(d, x);
            && Inv(d) && d.switching == w.switching && Inv(w') && At(w', t) == At(d, t)
            && if !At(w, t).Requested? then At(d, t) == At(w, t) && SameChoice(w, d)
               else
                 var mode := At(w, t).mode;
                 if w.m.displayed == mode then
                   At(d, t) == On(mode, true) && d.m.selected == Some(mode) && d.m.opMode == w.m.opMode
                 else At(d, t) == On(mode, false) && d.m.selected == w.m.selected && d.m.opMode == w.m.displayed
  {
    hide Registered, Remembering, Run;
    StepKeeps(w, DecideMode(t));
    OthersKeepCall(Next(w, DecideMode(t)), t, x);
  }

  lemma ReturnPhase(w: World, t: nat, ok: bool)
    requires Inv(w)
    ensures var w' := Next(w, ReachedOn(t, ok));
            && SameChoice(w, w')
            && At(w', t) == if !At(w, t).On? then At(w, t)
                            else Done(At(w, t).mode, ok && w.m.observed == OperationEnable && At(w, t).okay)
  {
    hide Registered, Remembering;
  }

  /** Under every interference, other calls of switchMode included: the call returns true
      exactly when the wanted handler was selected and displayed already, or both state
      switches returned in time with their state observed and the mode was displayed at the
      decision. Its first lock drops the handler unless it returns there; its decision selects
      the wanted handler if its mode is displayed, and otherwise selects nothing and asks for
      the displayed mode. */
  lemma SwitchModeReturnsExactly(w: World, t: nat, mode: int, off: bool, on: bool, x1: seq<Action>, x2: seq<Action>,
                                 x3: seq<Action>, x4: seq<Action>)
    requires Inv(w) && (At(w, t).Idle? || At(w, t).Done?) && mode in w.m.modes && mode != NO_MODE
    requires ByOthers(t, x1) && ByOthers(t, x2) && ByOthers(t, x3) && ByOthers(t, x4)
    ensures var c := SwitchMode(w, t, mode, off, on, x1, x2, x3, x4);
            var already := c.atDrop.m.displayed == mode && c.atDrop.m.selected == Some(mode);
            var isOff := off && c.atOff.m.observed == w.switching;
            var isOn := on && c.atOn.m.observed == OperationEnable;
            var shown := c.atDecision.m.displayed == mode;
            && At(c.end, t) == Done(mode, already || (isOff && isOn && shown))
            && Next(c.atDrop, Drop(t)).m.selected == (if already then Some(mode) else None)
            && (already || !isOff ==> SameChoice(c.atDecision, c.decided))
            && (!already && isOff && shown ==>
                  At(c.decided, t) == On(mode, true) && c.decided.m.selected == Some(mode))
            && (!already && isOff && !shown ==>
                  && At(c.decided, t) == On(mode, false) && c.decided.m.selected == c.atDecision.m.selected
                  && c.decided.m.opMode == c.atDecision.m.displayed)
  {
    hide Next, Run, Registered, Remembering, WellFormed, Fitting;
    BeginPhase(w, t, mode, x1);
    var w2 := Run(Next(w, Begin(t, mode)), x1);
    DropPhase(w2, t, x2);
    var w3 := Run(Next(w2, Drop(t)), x2);
    OffPhase(w3, t, off, x3);
    var w4 := Run(Next(w3, ReachedOff(t, off)), x3);
    DecidePhase(w4, t, x4);
    ReturnPhase(Run(Next(w4, DecideMode(t)), x4), t, on);
  }

  // ----- From the decision to the return -----

  /** A call that can no longer take the handler of `mode` away: it has decided, or can only
      decide for that mode itself. */
  predicate Harmless(p: Pc, mode: int) {
    match p
    case StartedMode(_) => false
    case Off(m) => m == mode
    case Requested(m) => m == mode
    case _ => true
  }

  ghost predicate AllHarmless(w: World, t: nat, mode: int) {
    forall u: nat :: u != t ==> Harmless(At(w, u), mode)
  }

  /** Steps of what is under way already: no call begins, and none of them is one of call t. */
  predicate UnderWay(t: nat, actions: seq<Action>) {
    forall a <- actions :: Allowed(a) && !ByCall(a, t) && !a.Begin? && !a.ToNoMode?
  }

  lemma StaysHarmless(w: World, mode: int, u: nat, a: Action)
    requires Inv(w) && Allowed(a) && !a.Begin? && Harmless(At(w, u), mode)
    ensures Harmless(At(Next(w, a), u), mode)
  {
    hide Registered, Remembering, Decode, SetTransition, Fitting;
  }

  lemma HarmlessKeepsHandler(w: World, mode: int, a: Action)
    requires Inv(w) && Allowed(a) && !a.Begin? && !a.ToNoMode? && w.m.selected == Some(mode)
    requires a.Drop? || a.ReachedOff? || a.DecideMode? || a.ReachedOn? ==> Harmless(At(w, a.t), mode)
    ensures Next(w, a).m.selected == Some(mode)
  {
    hide Registered, Remembering, Decode, SetTransition, Fitting;
    HandleWriteOwnsPollBits(w.m);
  }

  lemma StepKeepsHandler(w: World, t: nat, mode: int, a: Action)
    requires Inv(w) && w.m.selected == Some(mode) && AllHarmless(w, t, mode)
    requires Allowed(a) && !ByCall(a, t) && !a.Begin? && !a.ToNoMode?
    ensures Next(w, a).m.selected == Some(mode) && AllHarmless(Next(w, a), t, mode)
  {
    HarmlessKeepsHandler(w, mode, a);
    forall u: nat | u != t
      ensures Harmless(At(Next(w, a), u), mode)
    {
      StaysHarmless(w, mode, u, a);
    }
    hide Next, Inv;
  }

  lemma {:induction false} RunKeepsHandler(w: World, t: nat, mode: int, actions: seq<Action>)
    requires Inv(w) && w.m.selected == Some(mode) && AllHarmless(w, t, mode) && UnderWay(t, actions)
    ensures Run(w, actions).m.selected == Some(mode)
    decreases |actions|
  {
    hide Registered, Remembering, Next, Fitting, AllHarmless;
    if actions != [] {
      var a := actions[0];
      assert Allowed(a) && !ByCall(a, t) && !a.Begin? && !a.ToNoMode?;
      StepKeeps(w, a);
      StepKeepsHandler(w, t, mode, a);
      RunKeepsHandler(Next(w, a), t, mode, actions[1..]);
    }
  }

  /** A status word that shows the state. */
  function WordFor(s: InternalState): (sw: Word)
    ensures Decode(sw) == s
  {
    match s
    case Start => {SW_READY_TO_SWITCH_ON, SW_SWITCH_ON_DISABLED}
    case NotReadyToSwitchOn => {}
    case SwitchOnDisabled => {SW_SWITCH_ON_DISABLED}
    case ReadyToSwitchOn => {SW_READY_TO_SWITCH_ON, SW_QUICK_STOP}
    case SwitchedOn => {SW_READY_TO_SWITCH_ON, SW_SWITCHED_ON, SW_QUICK_STOP}
    case OperationEnable => {SW_READY_TO_SWITCH_ON, SW_SWITCHED_ON, SW_OPERATION_ENABLED, SW_QUICK_STOP}
    case QuickStopActive => {SW_READY_TO_SWITCH_ON, SW_SWITCHED_ON, SW_OPERATION_ENABLED}
    case FaultReactionActive => {SW_READY_TO_SWITCH_ON, SW_SWITCHED_ON, SW_OPERATION_ENABLED, SW_FAULT}
    case Fault => {SW_FAULT}
  }

  lemma RunTwo(w: World, a: Action, b: Action)
    requires Inv(w) && Allowed(a) && Allowed(b)
    ensures Inv(Next(w, a))
    ensures Run(w, [a, b]) == Next(Next(w, a), b)
  {
    hide Next, Registered, Remembering;
    StepKeeps(w, a);
    StepKeeps(Next(w, a), b);
    assert [a, b][1..] == [b] && [b][1..] == [];
    assert Run(Next(w, a), [b]) == Run(Next(Next(w, a), b), []);
  }

  /** A call that waits for another mode to be displayed takes the handler away. */
  lemma RequestedTakes(w: World, t: nat, mode: int, u: nat) returns (x: seq<Action>)
    requires Inv(w) && u != t && At(w, u).Requested? && At(w, u).mode != mode
    ensures UnderWay(t, x) && Run(w, x).m.selected != Some(mode)
  {
    hide Registered, Remembering, Fitting;
    x := [PollDisplay({}, At(w, u).mode), DecideMode(u)];
    RunTwo(w, x[0], x[1]);
  }

  lemma StartedTakes(w: World, t: nat, mode: int, u: nat) returns (x: seq<Action>)
    requires Inv(w) && u != t && At(w, u).StartedMode?
    ensures UnderWay(t, x) && Run(w, x).m.selected != Some(mode)
  {
    hide Registered, Remembering, Fitting;
    x := [PollDisplay({}, At(w, u).mode + 1), Drop(u)];
    RunTwo(w, x[0], x[1]);
  }

  lemma OffTakes(w: World, t: nat, mode: int, u: nat) returns (x: seq<Action>)
    requires Inv(w) && u != t && At(w, u).Off? && At(w, u).mode != mode
    ensures UnderWay(t, x) && Run(w, x).m.selected != Some(mode)
  {
    hide Registered, Remembering, Fitting;
    var y := [PollStatus(WordFor(w.switching)), ReachedOff(u, true)];
    RunTwo(w, y[0], y[1]);
    RunKeeps(w, y);
    var z := RequestedTakes(Run(w, y), t, mode, u);
    x := y + z;
    RunSplit(w, y, z);
  }

  lemma {:induction false} RunSplit(w: World, x: seq<Action>, y: seq<Action>)
    requires Inv(w) && (forall a <- x :: Allowed(a)) && forall a <- y :: Allowed(a)
    ensures Inv(Run(w, x)) && Run(w, x + y) == Run(Run(w, x), y)
    decreases |x|
  {
    hide Next, Registered, Remembering;
    if x == [] {
      assert x + y == y;
    } else {
      StepKeeps(w, x[0]);
      assert (x + y)[1..] == x[1..] + y;
      RunSplit(Next(w, x[0]), x[1..], y);
    }
  }

  /** The exact condition for overlapping calls. Once call t has decided and selected the
      handler, no run of what is under way takes it away if and only if no other call is before
      its first lock, or on its way to a decision for another mode. */
  lemma KeepsHandlerExactly(w: World, t: nat)
    requires Inv(w) && At(w, t).On? && At(w, t).okay && w.m.selected == Some(At(w, t).mode)
    ensures (forall x :: UnderWay(t, x) ==> Run(w, x).m.selected == Some(At(w, t).mode)) <==>
            forall u: nat :: u != t ==> Harmless(At(w, u), At(w, t).mode)
  {
    var mode := At(w, t).mode;
    hide Run, Registered, Remembering, Fitting;
    if AllHarmless(w, t, mode) {
      forall x | UnderWay(t, x)
        ensures Run(w, x).m.selected == Some(mode)
      {
        RunKeepsHandler(w, t, mode, x);
      }
    } else {
      var u: nat :| u != t && !Harmless(At(w, u), mode);
      var x;
      if At(w, u).StartedMode? {
        x := StartedTakes(w, t, mode, u);
      } else if At(w, u).Off? {
        x := OffTakes(w, t, mode, u);
      } else {
        x := RequestedTakes(w, t, mode, u);
      }
    }
  }

  /** So, whatever happened before the decision, true implies at the return that the handler
      is selected, if no other call is then on its way to take it and none begins. */
  lemma TrueMeansSelected(w: World, t: nat, mode: int, off: bool, on: bool, x1: seq<Action>, x2: seq<Action>,
                          x3: seq<Action>, x4: seq<Action>)
    requires Inv(w) && (At(w, t).Idle? || At(w, t).Done?) && mode in w.m.modes && mode != NO_MODE
    requires ByOthers(t, x1) && ByOthers(t, x2) && ByOthers(t, x3) && UnderWay(t, x4)
    ensures var c := SwitchMode(w, t, mode, off, on, x1, x2, x3, x4);
            var already := c.atDrop.m.displayed == mode && c.atDrop.m.selected == Some(mode);
            At(c.end, t) == Done(mode, true) && !already && AllHarmless(c.decided, t, mode) ==>
              c.end.m.selected == Some(mode)
  {
    var c := SwitchMode(w, t, mode, off, on, x1, x2, x3, x4);
    SwitchModeReturnsExactly(w, t, mode, off, on, x1, x2, x3, x4);
    hide SwitchMode, Run, Next, Registered, Remembering, WellFormed, Fitting, AllHarmless;
    ReturnPhase(c.atOn, t, on);
    if c.decided.m.selected == Some(mode) && AllHarmless(c.decided, t, mode) {
      RunKeepsHandler(c.decided, t, mode, x4);
    }
  }

  // ----- A call on its own -----

  /** Everything but call t itself, and the steps of other calls that write what it writes. */
  predicate Others(t: nat, actions: seq<Action>) {
    forall a <- actions :: Allowed(a) && !Touches(a) && !ByCall(a, t)
  }

  lemma OtherKeepsSelection(w: World, t: nat, a: Action)
    requires Inv(w) && Allowed(a) && !Touches(a) && !ByCall(a, t)
    ensures SameChoice(w, Next(w, a)) && At(Next(w, a), t) == At(w, t)
  {
    hide Registered, Remembering, Decode, SetTransition, Fitting;
    HandleWriteOwnsPollBits(w.m);
  }

  lemma {:induction false} OthersKeepSelection(w: World, t: nat, actions: seq<Action>)
    requires Inv(w) && Others(t, actions)
    ensures Inv(Run(w, actions))
    ensures SameChoice(w, Run(w, actions)) && At(Run(w, actions), t) == At(w, t)
    decreases |actions|
  {
    hide Registered, Remembering, Next, Fitting;
    if actions != [] {
      assert Allowed(actions[0]) && !Touches(actions[0]) && !ByCall(actions[0], t);
      StepKeeps(w, actions[0]);
      OtherKeepsSelection(w, t, actions[0]);
      OthersKeepSelection(Next(w, actions[0]), t, actions[1..]);
    }
  }

  /** A call of switchMode that no other one overlaps is transactional: besides what it returns,
      selection and mode asked for afterwards are determined. Without the display nothing is
      selected, and the mode displayed at the decision is asked for again. A failed return to
      Operation_Enable leaves the handler selected all the same. */
  lemma SwitchModeIsTransactional(w: World, t: nat, mode: int, off: bool, on: bool, x1: seq<Action>, x2: seq<Action>,
                                  x3: seq<Action>, x4: seq<Action>)
    requires Inv(w) && (At(w, t).Idle? || At(w, t).Done?) && mode in w.m.modes && mode != NO_MODE
    requires Others(t, x1) && Others(t, x2) && Others(t, x3) && Others(t, x4)
    ensures var c := SwitchMode(w, t, mode, off, on, x1, x2, x3, x4);
            var already := c.atDrop.m.displayed == mode && c.atDrop.m.selected == Some(mode);
            var isOff := off && c.atOff.m.observed == w.switching;
            var isOn := on && c.atOn.m.observed == OperationEnable;
            var shown := c.atDecision.m.displayed == mode;
            && At(c.end, t) == Done(mode, already || (isOff && isOn && shown))
            && c.end.m.selected == (if already || (isOff && shown) then Some(mode) else None)
            && c.end.m.opMode == (if already || !isOff then w.m.opMode else c.atDecision.m.displayed)
  {
    hide Next, Run, Registered, Remembering, WellFormed, Fitting;
    var w1 := Next(w, Begin(t, mode));
    BeginPhase(w, t, mode, x1);
    OthersKeepSelection(w1, t, x1);
    var w2 := Run(w1, x1);
    DropPhase(w2, t, x2);
    OthersKeepSelection(Next(w2, Drop(t)), t, x2);
    var w3 := Run(Next(w2, Drop(t)), x2);
    OffPhase(w3, t, off, x3);
    OthersKeepSelection(Next(w3, ReachedOff(t, off)), t, x3);
    var w4 := Run(Next(w3, ReachedOff(t, off)), x3);
    DecidePhase(w4, t, x4);
    OthersKeepSelection(Next(w4, DecideMode(t)), t, x4);
    ReturnPhase(Run(Next(w4, DecideMode(t)), x4), t, on);
  }

  // ----- An overlap that takes the handler away -----

  /** Between the decision of call t and its return, call u can drop the handler, and t
      still returns true. */
  lemma SecondCallDeselects(w: World, t: nat, u: nat)
    requires Inv(w) && TakesAway(w, t, u)
    ensures Inv(Next(w, Drop(u)))
    ensures var end := Next(Next(w, Drop(u)), ReachedOn(t, true));
            At(end, t) == Done(At(w, t).mode, true) && end.m.selected == None
  {
    StepKeeps(w, Drop(u));
    hide Inv;
  }

  /** Call t has decided, the drive is enabled, and call u is at its first lock for another mode. */
  predicate TakesAway(w: World, t: nat, u: nat) {
    && At(w, t).On? && At(w, t).okay && w.m.observed == OperationEnable
    && At(w, u).StartedMode? && !(w.m.displayed == At(w, u).mode && w.m.selected == Some(w.m.displayed))
  }

  ghost predicate Reaches(start: World, w: World)
    requires Inv(start)
  {
    Inv(w) && exists x :: (forall a <- x :: Allowed(a)) && Run(start, x) == w
  }

  lemma ReachesNext(start: World, w: World, a: Action)
    requires Inv(start) && Reaches(start, w) && Allowed(a)
    ensures Inv(Next(w, a)) && Reaches(start, Next(w, a))
  {
    hide Next, Registered, Remembering;
    var x :| (forall b <- x :: Allowed(b)) && Run(start, x) == w;
    StepKeeps(w, a);
    RunSplit(start, x, [a]);
    assert [a][1..] == [];
    assert Run(w, [a]) == Run(Next(w, a), []);
    assert Run(start, x + [a]) == Next(w, a);
  }

  /** With profiled position and profiled velocity registered, and the former displayed. */
  predicate TwoModes(w: World) {
    && 1 in w.m.modes && 3 in w.m.modes && w.m.displayed == 1 && w.m.selected == None && w.calls == map[]
  }

  lemma TwoModesReached(start: World) returns (w: World)
    requires Initial(start)
    ensures Inv(start) && Reaches(start, w) && TwoModes(w) && w.switching == start.switching
  {
    RunKeeps(start, []);
    assert Run(start, []) == start;
    var first := Register(1, Position(0, false, None, {}));
    var second := Register(3, Forward(ForwardingOf(3).value, 0, false));
    ReachesNext(start, start, first);
    var w1 := Next(start, first);
    ReachesNext(start, w1, second);
    var w2 := Next(w1, second);
    ReachesNext(start, w2, PollDisplay({}, 1));
    w := Next(w2, PollDisplay({}, 1));
  }

  /** From any motor before its first use a run leads to such a moment. */
  lemma OverlapIsReachable(start: World) returns (w: World)
    requires Initial(start)
    ensures Inv(start) && Reaches(start, w) && TakesAway(w, 0, 1)
  {
    hide Reaches, Registered, Remembering, WellFormed, Fitting, ForwardingOf;
    var w0 := TwoModesReached(start);
    w := BothStarted(start, w0);
    w := FirstDecides(start, w);
  }

  lemma BothStarted(start: World, w0: World) returns (w: World)
    requires Inv(start) && Reaches(start, w0) && TwoModes(w0)
    ensures Reaches(start, w) && w.switching == w0.switching
    ensures At(w, 0) == StartedMode(1) && At(w, 1) == StartedMode(3) && w.m.displayed == 1 && w.m.selected == None
  {
    hide Registered, Remembering, Fitting;
    ReachesNext(start, w0, Begin(0, 1));
    var w1 := Next(w0, Begin(0, 1));
    ReachesNext(start, w1, Begin(1, 3));
    w := Next(w1, Begin(1, 3));
  }

  lemma FirstDecides(start: World, w0: World) returns (w: World)
    requires Inv(start) && Reaches(start, w0)
    requires At(w0, 0) == StartedMode(1) && At(w0, 1) == StartedMode(3) && w0.m.displayed == 1 && w0.m.selected == None
    ensures Reaches(start, w) && TakesAway(w, 0, 1)
  {
    hide Registered, Remembering, Fitting, Reaches;
    var w2 := FirstIsOff(start, w0);
    ReachesNext(start, w2, ReachedOff(0, true));
    var w3 := Next(w2, ReachedOff(0, true));
    ReachesNext(start, w3, DecideMode(0));
    var w4 := Next(w3, DecideMode(0));
    var on := PollStatus(WordFor(OperationEnable));
    ReachesNext(start, w4, on);
    w := Next(w4, on);
  }

  lemma FirstIsOff(start: World, w0: World) returns (w: World)
    requires Inv(start) && Reaches(start, w0)
    requires At(w0, 0) == StartedMode(1) && At(w0, 1) == StartedMode(3) && w0.m.displayed == 1 && w0.m.selected == None
    ensures Inv(w) && Reaches(start, w) && At(w, 0) == Off(1) && At(w, 1) == StartedMode(3)
    ensures w.m.displayed == 1 && w.m.selected == None && w.m.observed == w.switching
  {
    hide Registered, Remembering, Fitting;
    ReachesNext(start, w0, Drop(0));
    var w1 := Next(w0, Drop(0));
    var off := PollStatus(WordFor(w0.switching));
    ReachesNext(start, w1, off);
    w := Next(w1, off);
  }
}
