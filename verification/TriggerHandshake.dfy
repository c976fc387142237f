/** The one-shot trigger between a service call and the control loop: two cells that are NaN
    when empty, written by both sides without a lock around their read and clear
    (canopen_ros2_controllers/include/canopen_ros2_controllers/cia402_device_controller.hpp,
    canopen_ros2_control/include/canopen_ros2_control/cia402_system.hpp,
    canopen_ros2_control/src/cia402_system.cpp). */
module TriggerHandshake {
  import opened Wrappers

  /** The control loop: between polls, having read the command cell, having found a command,
      or holding the driver's result. */
  datatype Server = Ready | HasRead(found: bool) | Commanded | Invoked(result: bool)

  /** The service call: none, waiting for feedback, or resetting the cells with its result. */
  datatype Client = NoCall | Waiting | Answered(answer: bool) | Resetting(last: bool)

  datatype World = World(
    command: bool,           // the command cell holds a value
    response: Option<bool>,  // the feedback cell
    server: Server,
    client: Client,
    invocations: seq<bool>,  // results of the driver calls so far
    completed: seq<bool>)    // results of the completed service calls

  /** Writes of the client may fail; `done` says whether one went through. */
  datatype Step =
    | Send(done: bool)
    | Poll
    | ResetFeedback(done: bool)
    | ResetCommand(done: bool)
    | ReadCommand
    | ClearCommand
    | Invoke(outcome: bool)
    | Respond

  /** A step of a side that is not at that point does nothing. */
  function Next(w: World, a: Step): World {
    match a
    case Send(done) =>
      if w.client != NoCall then w else w.(command := w.command || done, client := Waiting)
    case Poll =>
      if w.client != Waiting || w.response.None? then w else w.(client := Answered(w.response.value))
    case ResetFeedback(done) =>
      if !w.client.Answered? then w
      else w.(response := if done then None else w.response, client := Resetting(w.client.answer))
    case ResetCommand(done) =>
      if !w.client.Resetting? then w
      else w.(command := w.command && !done, client := NoCall, completed := w.completed + [w.client.last])
    case ReadCommand =>
      if w.server != Ready then w else w.(server := HasRead(w.command))
    case ClearCommand =>
      if !w.server.HasRead? then w
      else w.(command := false, server := if w.server.found then Commanded else Ready)
    case Invoke(outcome) =>
      if w.server != Commanded then w
      else w.(server := Invoked(outcome), invocations := w.invocations + [outcome])
    case Respond =>
      if !w.server.Invoked? then w else w.(response := Some(w.server.result), server := Ready)
  }

  function Run(w: World, steps: seq<Step>): World
    decreases |steps|
  {
    if steps == [] then w else Run(Next(w, steps[0]), steps[1..])
  }

  const START := World(false, None, Ready, NoCall, [], [])

  /** The cells and what the control loop does with them. */
  class MotorTriggerCommand {
    var onsCmd: Option<real>
    var resp: Option<real>

    constructor ()
      ensures onsCmd == None && resp == None
    {
      onsCmd, resp := None, None;
    }

    ghost predicate Holds(w: World)
      reads this
    {
      && w.command == onsCmd.Some?
      && w.response == if resp == None then None else Some(resp.value != 0.0)
    }

    /** Without a client step in between. */
    method IsCommanded(ghost w: World) returns (commanded: bool)
      requires Holds(w) && w.server == Ready
      modifies this`onsCmd
      ensures var w' := Next(Next(w, ReadCommand), ClearCommand);
              Holds(w') && commanded == (w'.server == Commanded)
      ensures commanded == old(onsCmd).Some? && onsCmd == None
    {
      commanded := onsCmd.Some?;
      onsCmd := None;
    }

    method SetResponse(response: bool, ghost w: World)
      requires Holds(w) && w.server == Invoked(response)
      modifies this`resp
      ensures Holds(Next(w, Respond)) && resp == Some(if response then 1.0 else 0.0)
    {
      resp := Some(if response then 1.0 else 0.0);
    }
  }

  // ----- The invariant -----

  /** The control loop has nothing to do with the current call. */
  predicate Unaware(w: World) {
    w.server == Ready || w.server == HasRead(false)
  }

  predicate Inv(w: World) {
    match w.client
    case NoCall =>
      !w.command && w.response == None && Unaware(w) && w.invocations == w.completed
    case Waiting =>
      if w.response.Some? then
        !w.command && Unaware(w) && w.invocations == w.completed + [w.response.value]
      else if w.server.Invoked? then
        !w.command && w.invocations == w.completed + [w.server.result]
      else
        && w.invocations == w.completed
        && (w.server == Commanded ==> !w.command)
        && (w.server == HasRead(true) ==> w.command)
    case Answered(answer) =>
      !w.command && w.response == Some(answer) && Unaware(w) && w.invocations == w.completed + [answer]
    case Resetting(last) =>
      !w.command && w.response == None && Unaware(w) && w.invocations == w.completed + [last]
  }

  lemma StepKeeps(w: World, a: Step)
    requires Inv(w) && a != ResetFeedback(false)
    ensures Inv(Next(w, a))
  {
  }

  lemma {:induction false} RunKeeps(w: World, steps: seq<Step>)
    requires Inv(w) && ResetFeedback(false) !in steps
    ensures Inv(Run(w, steps))
    decreases |steps|
  {
    if steps != [] {
      StepKeeps(w, steps[0]);
      RunKeeps(Next(w, steps[0]), steps[1..]);
    }
  }

  /** Under every interleaving of the call and the control loop, provided no reset of the
      feedback fails: the i-th completed call returned the result of the i-th driver
      invocation, at most one more invocation has been made, and with no call outstanding
      there is none and both cells are empty. */
  lemma OneInvocationPerCall(steps: seq<Step>)
    requires ResetFeedback(false) !in steps
    ensures var w := Run(START, steps);
            && w.completed <= w.invocations && |w.invocations| <= |w.completed| + 1
            && (w.client == NoCall ==> w.invocations == w.completed && !w.command && w.response == None)
  {
    RunKeeps(START, steps);
  }

  // ----- The exceptions, exactly -----

  lemma {:induction false} RunSplit(w: World, x: seq<Step>, y: seq<Step>)
    ensures Run(w, x + y) == Run(Run(w, x), y)
    decreases |x|
  {
    if x == [] {
      assert x + y == y;
    } else {
      assert (x + y)[1..] == x[1..] + y;
      RunSplit(Next(w, x[0]), x[1..], y);
    }
  }

  lemma RunTwo(w: World, a: Step, b: Step)
    ensures Run(w, [a, b]) == Next(Next(w, a), b)
  {
    assert [a, b][1..] == [b] && [b][1..] == [];
    assert Run(Next(w, a), [b]) == Run(Next(Next(w, a), b), []);
  }

  /** A call answered, then three of its client's steps and the next call's: completed twice. */
  lemma StaleAnswer(w: World)
    requires Inv(w) && w.client.Answered?
    ensures var w' := Run(Next(w, ResetFeedback(false)),
                          [ResetCommand(true), Send(true), Poll, ResetFeedback(true), ResetCommand(true)]);
            |w'.completed| > |w'.invocations|
  {
    var v := Next(w, ResetFeedback(false));
    var x, y, z := [ResetCommand(true), Send(true)], [Poll, ResetFeedback(true)], [ResetCommand(true)];
    RunSplit(v, x + y, z);
    RunSplit(v, x, y);
    RunTwo(v, ResetCommand(true), Send(true));
    RunTwo(Run(v, x), Poll, ResetFeedback(true));
    assert z[1..] == [];
    assert x + y + z == [ResetCommand(true), Send(true), Poll, ResetFeedback(true), ResetCommand(true)];
  }

  /** The proviso is exact: from an answered call on, no call can complete without an
      invocation of its own if and only if the reset of its feedback went through. */
  lemma StaleExactly(w: World, done: bool)
    requires Inv(w) && w.client.Answered?
    ensures (forall steps :: ResetFeedback(false) !in steps ==>
               var w' := Run(Next(w, ResetFeedback(done)), steps);
               |w'.completed| <= |w'.invocations|)
            <==> done
  {
    var v := Next(w, ResetFeedback(done));
    if done {
      StepKeeps(w, ResetFeedback(true));
      forall steps | ResetFeedback(false) !in steps
        ensures |Run(v, steps).completed| <= |Run(v, steps).invocations|
      {
        RunKeeps(v, steps);
      }
    } else {
      StaleAnswer(w);
      var steps := [ResetCommand(true), Send(true), Poll, ResetFeedback(true), ResetCommand(true)];
      assert ResetFeedback(false) !in steps && |Run(v, steps).completed| > |Run(v, steps).invocations|;
    }
  }

  /** A waiting call whose command is gone, or about to be cleared by a control loop that
      read the cell before the command was there. */
  predicate Lost(w: World) {
    w.client == Waiting && w.response == None && Unaware(w) && (w.command ==> w.server == HasRead(false))
  }

  lemma {:induction false} LostForever(w: World, steps: seq<Step>)
    requires Lost(w)
    ensures Lost(Run(w, steps)) && Run(w, steps).completed == w.completed
    decreases |steps|
  {
    if steps != [] {
      LostForever(Next(w, steps[0]), steps[1..]);
    }
  }

  /** How far a waiting call that is not lost has got. */
  function Stage(w: World): nat {
    if w.client.Resetting? then 6
    else if w.client.Answered? then 5
    else if w.response.Some? then 4
    else match w.server
      case Ready => 0
      case HasRead(_) => 1
      case Commanded => 2
      case Invoked(_) => 3
  }

  /** The step that moves stage k on. */
  predicate Helps(k: nat, a: Step) {
    match k
    case 0 => a == ReadCommand
    case 1 => a == ClearCommand
    case 2 => a.Invoke?
    case 3 => a == Respond
    case 4 => a == Poll
    case 5 => a.ResetFeedback?
    case 6 => a.ResetCommand?
    case _ => false
  }

  /** The steps contain, in this order and with anything in between, the ones that help from
      stage k on: a read and a clear of the command, an invocation, its response, a poll of the
      feedback, and the two resets. */
  predicate Fair(steps: seq<Step>, k: nat)
    decreases |steps|
  {
    k >= 7 || (steps != [] && Fair(steps[1..], if Helps(k, steps[0]) then k + 1 else k))
  }

  lemma {:induction false} CompletedGrows(w: World, steps: seq<Step>)
    ensures |Run(w, steps).completed| >= |w.completed|
    decreases |steps|
  {
    if steps != [] {
      CompletedGrows(Next(w, steps[0]), steps[1..]);
    }
  }

  /** The call is outstanding and not lost. */
  predicate Outstanding(w: World) {
    w.client != NoCall && !Lost(w)
  }

  lemma StageStep(w: World, a: Step, k: nat)
    requires Outstanding(w) && Stage(w) >= k && k < 7
    ensures |Next(w, a).completed| > |w.completed| ||
            (Outstanding(Next(w, a)) && |Next(w, a).completed| == |w.completed| &&
             Stage(Next(w, a)) >= if Helps(k, a) then k + 1 else k)
  {
  }

  lemma {:induction false} FairCompletes(w: World, steps: seq<Step>, k: nat)
    requires Outstanding(w) && k < 7 && Stage(w) >= k && Fair(steps, k)
    ensures |Run(w, steps).completed| > |w.completed|
    decreases |steps|
  {
    hide Next, Outstanding, Helps, Stage;
    var a := steps[0];
    var w' := Next(w, a);
    StageStep(w, a, k);
    if |w'.completed| > |w.completed| {
      CompletedGrows(w', steps[1..]);
    } else {
      StageBound(w');
      FairCompletes(w', steps[1..], if Helps(k, a) then k + 1 else k);
    }
  }

  lemma StageBound(w: World)
    ensures Stage(w) < 7
  {
  }

  const ROUND: seq<Step> :=
    [ReadCommand, ClearCommand, Invoke(true), Respond, Poll, ResetFeedback(true), ResetCommand(true)]

  lemma {:induction false} RoundIsFair(k: nat)
    requires k <= 7
    ensures Fair(ROUND[k..], k)
    decreases 7 - k
  {
    if k < 7 {
      RoundIsFair(k + 1);
      assert ROUND[k..][1..] == ROUND[k + 1..];
    }
  }

  /** A waiting call completes in every fair run if and only if it is not lost. */
  lemma FairRunsCompleteExactly(w: World)
    requires w.client == Waiting
    ensures (forall steps :: Fair(steps, 0) ==> |Run(w, steps).completed| > |w.completed|) <==> !Lost(w)
  {
    if Lost(w) {
      RoundIsFair(0);
      assert ROUND[0..] == ROUND;
      LostForever(w, ROUND);
    } else {
      forall steps | Fair(steps, 0)
        ensures |Run(w, steps).completed| > |w.completed|
      {
        FairCompletes(w, steps, 0);
      }
    }
  }

  /** Neither can a lost call complete in any other run. */
  lemma CompletesUnlessLost(w: World)
    requires w.client == Waiting
    ensures (exists steps :: |Run(w, steps).completed| > |w.completed|) <==> !Lost(w)
  {
    FairRunsCompleteExactly(w);
    if Lost(w) {
      forall steps
        ensures Run(w, steps).completed == w.completed
      {
        LostForever(w, steps);
      }
    } else {
      RoundIsFair(0);
      assert ROUND[0..] == ROUND;
      assert |Run(w, ROUND).completed| > |w.completed|;
    }
  }

  /** And a call is lost from the start exactly when its command was not written, or was
      written between the control loop's read and clear. */
  lemma SentIsLostExactly(w: World, done: bool)
    requires Inv(w) && w.client == NoCall
    ensures Lost(Next(w, Send(done))) <==> !done || w.server == HasRead(false)
  {
  }
}
