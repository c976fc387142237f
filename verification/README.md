# Verification of the CANopen driver stack

A Dafny model of the parts of ros2_canopen that carry state over time, with proofs of what
they keep. `dafny verify dfyconfig.toml` checks all of it.

- **CiA 402 driver and drive** (`Word16`, `State402`, `Command402`, `Modes`, `MotorSteps`,
  `MotorOutcomes`, `MockSlave`, `EnableLoop`, `EnableMotor`, `MotorRuns`, `FaultReset`,
  `PositionHandshake`, `Homing`). The motor is a class with the fields of the original; its
  critical sections are functions of those fields, and the poll timer, the blocking switches and
  the service calls interleave section by section. The simulated drive is the other end of the
  wire. The state machine and the two words are those of CiA DSP 402 V2.0, sections 10.1.1, 10.3.1
  and 10.3.2, profile position and homing those of sections 12 and 13.
- **Motion generator** (`Reals`, `MotionPlan`, `MotionGenerator`, `MotionSafety`). The trapezoidal and
  triangular planner over real numbers, with re-targeting in mid-motion. All plans reduce to
  one course measured along the direction of motion, where the arithmetic is done once.
- **Hydraulic axis** (`Hydraulic408`), **PDO index** (`PdoIndex`, CiA 301 V4.2.0, sections
  7.5.2.36 and 7.5.2.38), **process data codec** (`Codec`), **target scaling**
  (`TargetScaling`), **lifecycle manager** (`Lifecycle`) and **trigger handshake**
  (`TriggerHandshake`).

16-bit words are sets of bit positions: `|` is `+`, `& ~` is `-`, `&` is `*`. Clock readings,
random delays and answers of other processes are arguments: a wait takes the script of what
happens before its deadline, so a time-out is a script that ends.

Some properties hold only under a condition. There the code is kept as it is and the condition
is proved to be exact:

- Enabling from Not_Ready_To_Switch_On leaves the stored word alone. If that word is already a
  shutdown command the drive takes two hops (`EnableLoop.StaysTogetherExactly`).
- A target at exactly the stopping point of a moving axis gives the plan no direction. It runs on
  at the old velocity and then jumps (`MotionSafety.SmoothExactlyWhenRegular`).
- The scan of the mapping records stops at a missing sub-index, the index does not
  (`PdoIndex.IndexAgreesExactly`).
- A dictionary type narrower than the declared one loses values (`Codec.PipelineExactly`).
- `bring_down_all` compares names with "master" exactly, while elsewhere a name that contains
  it is the master (`Lifecycle.DownKeepsOrderExactly`).
- `is_commanded` clears the command cell without looking again, so a command written in
  between is lost, and a failed reset of the feedback answers the next call
  (`TriggerHandshake.SentIsLostExactly`, `TriggerHandshake.StaleExactly`).
- A mode switch whose return to Operation_Enable fails returns false with the new handler
  selected (`MotorRuns.SwitchModeIsTransactional`).
- Of two overlapping mode switches one can take away the handler of the other, which still
  returns true, exactly when it is before its first lock or on its way to another mode
  (`MotorRuns.KeepsHandlerExactly`, `MotorRuns.OverlapIsReachable`).
- A status word transmitted between two bit writes of the simulated drive can show a state it
  was never in (`MockSlave.MidwayStatusExactly`).
- A set point is stored before the lock is taken, so a command to climb can come before it is
  sent (`Hydraulic408.SentIsStreamedExactly`).

## Model

| member | source | states |
|---|---|---|
| `EnableLoop.EnablingIsMonotone` | canopen_402_driver/src/motor.cpp:179-212 | After the first transition towards Operation_Enable, for every order of transitions, wake-ups, poll writes, poll reads, deliveries both ways, status transmissions and mode changes, with any number of frames in flight: the drive is in the state the switching thread acts on or its next hop, the driver never observes a state ahead of the drive, and the drive never moves away from Operation_Enable between any two moments |
| `EnableLoop.FirstTransitionEstablishes` | canopen_402_driver/src/motor.cpp:185-199 | Setting the first transition with drive and driver in sync establishes the invariant of the loop |
| `EnableLoop.StepKeeps` | canopen_402_driver/src/motor.cpp:179-212 | Each single step of any party keeps that invariant and raises neither rank |
| `EnableLoop.NotReadySkipsExactly` | canopen_402_driver/src/command.cpp:35-38 | The automatic transition leaves the word alone: from Not_Ready_To_Switch_On a word delivered twice takes the drive two hops just when the stored word, as it is sent, is already a shutdown command |
| `EnableLoop.StaysTogetherExactly` | canopen_402_driver/src/motor.cpp:179-212 | With drive and driver in agreement they stay within one hop in every run after the first transition if and only if the stored word is not such a shutdown command in Not_Ready_To_Switch_On |
| `EnableLoop.FairRoundLowersRank` | canopen_402_driver/src/motor.cpp:185-211 | A round that contains a transition, a poll write, its delivery, the status coming back, a poll read and a wake-up in this order, whatever else happens in between, brings the switching thread at least one hop closer |
| `EnableLoop.EnablingTerminates` | canopen_402_driver/src/motor.cpp:179-212 | As many such rounds as there are hops left, at most four, bring the thread, the observed state and the drive to Operation_Enable |
| `EnableMotor.LoopIsTheMotor` | canopen_402_driver/src/motor.cpp:185-199 | Each section of the motor, handleWrite, readState, setTarget and those of switchState, is one step of the loop or invisible to it |
| `EnableMotor.TransitionSucceeds` | canopen_402_driver/src/command.cpp:96-119 | A transition towards Operation_Enable never fails and reports the next hop |
| `EnableMotor.RunIsTheLoops` | canopen_402_driver/src/motor.cpp:179-212 | Every run of these sections against the bus and the slave is a run of the loop |
| `EnableMotor.MotorEnablesMonotonically` | canopen_402_driver/src/motor.cpp:179-295 | So in every run of the motor after its first transition motor and slave stay within one hop and the slave never moves away from Operation_Enable |
| `EnableMotor.MotorEnables` | canopen_402_driver/src/motor.cpp:179-295 | And as many fair rounds of the motor as there are hops left bring the call, the observed state and the slave to Operation_Enable |
| `EnableMotor.ScriptIsTheCall` | canopen_402_driver/src/motor.cpp:179-212 | The call of switchState that runs in the system, with one wait for each of its wake-ups, is where the run is: it has reached Operation_Enable just when the run has, and then with the motor as the run left it, polls since excepted |
| `EnableMotor.CallReturnsExactly` | canopen_402_driver/src/motor.cpp:179-212 | So that call returns true exactly when the run brings it to Operation_Enable |
| `EnableMotor.EnablingCallSucceeds` | canopen_402_driver/src/motor.cpp:179-212 | From an agreement of motor and slave, for every order of the steps, the call of switchState(Operation_Enable) returns true if after its first transition there are as many fair rounds as hops left |
| `MotorOutcomes.SwitchReturnsExactly` | canopen_402_driver/src/motor.cpp:179-212 | For every script, with targets set by other calls at any time: switchState returns true exactly when the states decoded during its waits lead to the newest target before the deadline, over any number of hops and with a command out of each state, and that is still the target of the call |
| `MotorOutcomes.TurnOutcome` | canopen_402_driver/src/motor.cpp:185-210 | One turn of the loop fails and leaves the word where there is no command, and otherwise waits, takes over what was polled and set meanwhile, and goes on just when another state was decoded |
| `MotorOutcomes.EnablingTakesRankTurns` | canopen_402_driver/src/motor.cpp:185-211 | If the waits show the hops of the enabling path, the call returns true with Operation_Enable observed after exactly as many turns as there are hops from the state observed at first, and false with fewer |
| `MotorOutcomes.ModeSwitchReturnsExactly` | canopen_402_driver/src/motor.cpp:99-176 | switchMode returns true exactly when the mode is supported and registered and either selected and displayed already, or the decoded states lead to the switching state, the mode is displayed before the deadline, and the states lead back to Operation_Enable |
| `MotorOutcomes.SightOutcome` | canopen_402_driver/src/motor.cpp:214-257 | A status read that a waiting call meets is decoded, and the display and the word polled are taken over |
| `MotorOutcomes.WaitEndsAtFirst` | canopen_402_driver/src/motor.cpp:133-150 | The wait for the display ends at the first status read that shows the mode, or with the last before the deadline |
| `MotorOutcomes.HaltOutcome` | canopen_402_driver/src/motor.cpp:421-443 | A halt is refused in a fault; from Operation_Enable the word keeps all bits but 1, 2 and 7 and the next word sent brings an enabled slave to Quick_Stop_Active and keeps it there; from any other state the observed state becomes the target |
| `MotorOutcomes.ReadOutcome` | canopen_402_driver/src/motor.cpp:214-234 | The state is decoded, the display stored, and of the handlers only a selected and displayed one sees the status word, homing its bits 10, 12 and 13 |
| `MotorOutcomes.TargetOutcome` | canopen_402_driver/src/motor.cpp:22-30 | A target is taken just when the drive is observed enabled, the value is a number and a mode other than homing is selected: the selected handler then holds it, cut off after the point and at the limits of its type, and no other handler changes |
| `MotorOutcomes.RecoverOutcome` | canopen_402_driver/src/motor.cpp:444-453 | Before its state switch handleRecover requests the fault reset and disarms the selected handler only |
| `MotorOutcomes.InitOutcome` | canopen_402_driver/src/motor.cpp:357-376 | Before its state switch handleInit has read the drive, cleared the stored word and requested the fault reset; handlers registered before are kept |
| `MotorOutcomes.InitFirstWord` | canopen_402_driver/src/motor.cpp:370-378 | For a disabled drive the first word that handleInit prepares is a shutdown with the fault reset still to be sent |
| `MotorOutcomes.HomingEnds` | canopen_402_driver/src/motor.cpp:400-414 | After homing its handler is idle with the last status; success selects no mode, failure leaves the selection |
| `MotorOutcomes.HomingIsCommanded` | canopen_402_driver/src/motor.cpp:259-279 | While homing is selected, displayed and observed enabled, the word sent has the start bit set and Halt clear, or the other way round, just as the execute flag says |
| `MotorOutcomes.StatusesMeaning` | canopen_402_driver/src/default_homing_mode.cpp:32-42 | While homing runs its handler sees, at each read, the three status bits if homing is displayed, and otherwise what it saw before |
| `Command402.EnablingPathEnds` | canopen_402_driver/src/command.cpp:68-119 | From every state the enabling path has exactly rank-many hops, each lowers the rank by one, ends in Operation_Enable, and setTransition succeeds on each hop and reports it |
| `Command402.PathIsShortest` | canopen_402_driver/src/command.cpp:22-94 | The enabling path is a shortest way to Operation_Enable through the table |
| `Command402.TransitionOwnsStateBits` | canopen_402_driver/src/command.cpp:96-119 | setTransition changes bits 0-3 and 7 only, for all pairs of states, and nothing when it fails |
| `Command402.CommandWords` | canopen_402_driver/src/command.cpp:22-67 | The word of each table entry, bit by bit, by where the entry leads |
| `Word16.AccessesStayInMask` | canopen_402_driver/include/canopen_402_driver/word_accessor.hpp:31-50 | No sequence of accesses through the masked view changes a bit outside the mask |
| `Word16.WordAccessor.Set` | canopen_402_driver/include/canopen_402_driver/word_accessor.hpp:32-37 | Sets the bit within the mask and reports whether the mask has it |
| `Word16.WordAccessor.Reset` | canopen_402_driver/include/canopen_402_driver/word_accessor.hpp:38-43 | Clears the bit within the mask and reports whether the mask has it |
| `Word16.WordAccessor.Put` | canopen_402_driver/include/canopen_402_driver/word_accessor.hpp:46-50 | Replaces the masked bits and leaves the others |
| `State402.StateHandler.Read` | canopen_402_driver/src/state.cpp:27-92 | The stored and returned state is the decoding of the status word |
| `State402.DecodeExactly` | canopen_402_driver/src/state.cpp:27-92 | The states of the table in the standard, each as a mask and a value: bit 5 is looked at in four of them only, and every other word is the initial state |
| `State402.StateHandler.WaitForNewState` | canopen_402_driver/src/state.cpp:93-103 | The wait ends with the first other state, or with the known one after the deadline, and says which |
| `State402.FirstOtherMeaning` | canopen_402_driver/src/state.cpp:93-103 | A wait fails just when only the known state was stored before the deadline, and otherwise no change is skipped |
| `MockSlave.StatusWordTracksState` | canopen_fake_slaves/include/canopen_fake_slaves/cia402_slave.hpp:486-543 | For every sequence of control words, mode changes and mode-thread updates the driver decodes exactly the state of the simulated drive, never Unknown and never a fault state |
| `MockSlave.EventKeepsSound` | canopen_fake_slaves/include/canopen_fake_slaves/cia402_slave.hpp:803-818 | Each event keeps status word and state in agreement |
| `MockSlave.MidwayStatusExactly` | canopen_fake_slaves/include/canopen_fake_slaves/cia402_slave.hpp:486-543 | Between the writes of the single bits every status word shows the old or the new state exactly for the transitions to Switch_On_Disabled from Not_Ready_To_Switch_On, to Ready_To_Switch_On from Switched_On, and to the other states |
| `MockSlave.TableAgreesWithSlave` | canopen_fake_slaves/include/canopen_fake_slaves/cia402_slave.hpp:545-610 | The word of a table entry takes the drive to the target of the entry just when the drive implements it: it has no start and fault states, and quick stop in Operation_Enable only |
| `MockSlave.TableIsComplete` | canopen_402_driver/src/command.cpp:22-67 | There is an entry wherever some word takes the drive from one state to another, and five more, for the quick stop of the states before Operation_Enable and for the start and fault states |
| `MockSlave.TransitionMovesSlave` | canopen_402_driver/src/command.cpp:96-119 | setTransition succeeds just when some word takes the slave to the hop, or for the quick stop that the slave ignores; otherwise the word it leaves takes the slave there |
| `MockSlave.SlaveObeysExactly` | canopen_fake_slaves/include/canopen_fake_slaves/cia402_slave.hpp:545-800 | The slave moves from one state to another exactly on the command bits, and in the states, that the standard lists |
| `MockSlave.EventTouches` | canopen_fake_slaves/include/canopen_fake_slaves/cia402_slave.hpp:587-700 | A control word leaves the status bits that show no state, except that the first one after a new mode clears bits 10 and 12; modes 0 to 10 are taken over and five of them have a thread |
| `MockSlave.RepeatedWordIsStable` | canopen_fake_slaves/include/canopen_fake_slaves/cia402_slave.hpp:545-610 | A repeated word changes nothing more, except behind the automatic transition when the word is already a shutdown command |
| `MockSlave.CIA402MockSlave.OnWriteControlWord` | canopen_fake_slaves/include/canopen_fake_slaves/cia402_slave.hpp:803-818 | A control word makes exactly one step of the state machine, and every status word transmitted by it shows the state reached |
| `MockSlave.CIA402MockSlave.OnOperationEnabled` | canopen_fake_slaves/include/canopen_fake_slaves/cia402_slave.hpp:587-672 | Leaving Operation_Enable by the last condition that holds, the three flags the mode threads read, and on a change of mode dropping the acknowledge bits, transmitting and replacing the mode thread |
| `MockSlave.CIA402MockSlave.OnWriteMode` | canopen_fake_slaves/include/canopen_fake_slaves/cia402_slave.hpp:820-844 | A known mode is taken over; the display echoes even an unknown one, and the stored status is transmitted |
| `Modes.WriteNeedsArmed` | canopen_402_driver/include/canopen_402_driver/mode_forward_helper.hpp:42-57 | A mode handler asks for motion exactly when it has a target, or homing is executing, touches mode bits only, and writes only its target |
| `Modes.ForwardedObjects` | canopen_402_driver/include/canopen_402_driver/motor.hpp:41-58 | The object, target range and control bits of each forwarding mode |
| `Modes.StartDisarms` | canopen_402_driver/include/canopen_402_driver/profiled_position_mode.hpp:56-61 | A start leaves no target, no last target and no status |
| `Modes.ModeTargetHelper.SetTarget` | canopen_402_driver/include/canopen_402_driver/mode_target_helper.hpp:45-82 | NaN is refused and changes nothing; any other value is stored truncated, or cut off at the limits of the type |
| `Modes.ModeForwardHelper.Write` | canopen_402_driver/include/canopen_402_driver/mode_forward_helper.hpp:42-57 | With a target the mask bits are set and the target is written, without one they are cleared |
| `Modes.ProfiledPositionMode.Write` | canopen_402_driver/include/canopen_402_driver/profiled_position_mode.hpp:67-94 | The set-point write: post, take down, or leave the new-point bit |
| `Modes.ProfiledPositionMode.Start` | canopen_402_driver/include/canopen_402_driver/profiled_position_mode.hpp:56-61 | A start forgets the target, the last target and the status |
| `MotorSteps.HandleWriteOwnsPollBits` | canopen_402_driver/src/motor.cpp:259-295 | The poll write never changes the stored bits 0-3 and 7; what it sends differs from what it stores at most in bit 7, on a pending fault reset |
| `MotorSteps.WriteSendsRight` | canopen_402_driver/src/motor.cpp:259-295 | Every word sent, bit by bit: without an enabled drive the mode bits as they were and Halt; without the mode displayed no mode bit and Halt; with a forwarding mode its bits and its target, or neither and Halt; with profiled position bit 5, and bit 4 raised with the value just when a new target meets no acknowledgement and a lowered bit; with homing bit 4 just while it executes |
| `MotorSteps.HaltClearExactly` | canopen_402_driver/src/motor.cpp:259-279 | A word leaves with Halt clear exactly when Operation_Enable is observed, the selected mode is displayed, and its handler is armed |
| `MotorSteps.SwitchStateOutcome` | canopen_402_driver/src/motor.cpp:179-212 | switchState reports success only with the target observed and not replaced meanwhile, and whatever is polled or retargeted while it runs it leaves the selection, the mode asked for and every handler but the selected one alone |
| `MotorSteps.SwitchModeOutcome` | canopen_402_driver/src/motor.cpp:99-176 | The outcomes of switchMode, with poll activity, targets and handler changes in all three waits: up to the decision the handlers are as start() left them, and after it only the selected one changes; true means selected already, or selected, displayed at the decision and enabled; a missed deadline leaves nothing selected and asks for the displayed mode again |
| `MotorSteps.DecisionFindsMode` | canopen_402_driver/src/motor.cpp:133-150 | The decision finds the mode displayed just when it was shown before the deadline |
| `MotorSteps.InitLeavesHalted` | canopen_402_driver/src/motor.cpp:382-414 | However the homing part of handleInit ends, no handler but homing is selected and the next word sent has Halt set |
| `MotorSteps.Motor402.SetTarget` | canopen_402_driver/src/motor.cpp:22-30 | A target is passed on just when Operation_Enable is observed and the selected handler takes it, and nothing else changes |
| `MotorSteps.Motor402.ReadState` | canopen_402_driver/src/motor.cpp:214-257 | The status goes to the state decoder and, if its mode is displayed, to the selected handler; the display is stored |
| `MotorSteps.Motor402.HandleWrite` | canopen_402_driver/src/motor.cpp:259-295 | The new word, the handler and the word and value sent, and that they are right, bit by bit |
| `MotorSteps.Motor402.HandleHalt` | canopen_402_driver/src/motor.cpp:421-443 | Refused in a fault, otherwise quick stop from Operation_Enable, and the observed state as target elsewhere |
| `MotorSteps.Motor402.SwitchState` | canopen_402_driver/src/motor.cpp:179-212 | The loop computes the hops one by one against any script of poll activity, observed states and targets set by other calls, also between its test and its transition |
| `MotorSteps.Motor402.SwitchMode` | canopen_402_driver/src/motor.cpp:78-177 | The whole sequence of a mode switch against any script of poll activity, targets and handler changes in its three waits |
| `MotorSteps.Motor402.HandleRecover` | canopen_402_driver/src/motor.cpp:444-461 | Requests the fault reset, restarts the selected handler and switches to Operation_Enable |
| `MotorSteps.Motor402.HandleShutdown` | canopen_402_driver/src/motor.cpp:416-420 | Selects no mode and switches to Switch_On_Disabled |
| `MotorSteps.Motor402.HandleInit` | canopen_402_driver/src/motor.cpp:357-415 | The state and the result: true only if the drive was enabled and, where homing is available, homing was entered and completed on the statuses polled meanwhile, after which no mode is selected |
| `MotorRuns.NoMotionWithoutCommand` | canopen_402_driver/src/motor.cpp:259-295 | In every run of polls, service calls, homing, and any number of concurrent state and mode switches, the next word sent has Halt clear exactly when Operation_Enable is observed, the selected mode is displayed, and since its handler was last started a target was accepted or homing is executing; a value sent is the last accepted target |
| `MotorRuns.ActionsAreSections` | canopen_402_driver/src/motor.cpp:22-30 | The actions of a run are the sections of the motor: a target is noted just when the motor takes it, a start when it recovers |
| `MotorRuns.SilentWhileSwitching` | canopen_402_driver/src/motor.cpp:112-150 | From the drop of the old handler until some call decides, every word sent in Operation_Enable has Halt set and no mode bit |
| `MotorRuns.SwitchModeReturnsExactly` | canopen_402_driver/src/motor.cpp:99-176 | With any interference, overlapping calls included, switchMode returns true exactly when the handler was selected and displayed already, or both state switches returned in time with their state observed and the mode was displayed at the decision; its first lock drops the handler, and its decision selects the wanted one or asks for the displayed mode |
| `MotorRuns.KeepsHandlerExactly` | canopen_402_driver/src/motor.cpp:112-154 | Once a call has decided, no run of what is under way takes its handler away if and only if no other call is before its first lock or on its way to a decision for another mode |
| `MotorRuns.TrueMeansSelected` | canopen_402_driver/src/motor.cpp:152-176 | So, whatever happened before the decision, true then means at the return that the handler is selected |
| `MotorRuns.SwitchModeIsTransactional` | canopen_402_driver/src/motor.cpp:99-176 | For a call that no other one overlaps, selection and requested mode afterwards are determined too, on failures as well: nothing selected and the displayed mode asked for without the display, the handler selected when only the return to Operation_Enable fails |
| `MotorRuns.SecondCallDeselects` | canopen_402_driver/src/motor.cpp:112-122 | A second call can drop the handler between the decision and the return of the first, which still returns true |
| `MotorRuns.OverlapIsReachable` | canopen_402_driver/src/motor.cpp:78-176 | From any motor before its first use a run leads to such a moment |
| `MotorRuns.OthersKeepSelection` | canopen_402_driver/src/motor.cpp:112-176 | Nothing but the critical sections of switchMode changes the selection, the requested mode or the progress of a call |
| `MotorRuns.RunKeeps` | canopen_402_driver/src/motor.cpp:22-30 | Every run keeps the invariant that ties the flags of every started handler to the history of starts, targets and homing |
| `FaultReset.OneEdgePerRequest` | canopen_402_driver/src/motor.cpp:281-294 | After a request, with the drive in Fault, for every interleaving of poll writes with the restart of the handler, targets assigned by this and other calls, shutdown included, and transitions: the first word sent has bit 7 clear, then it rises at most once and stays, and there is exactly one rising edge just when a poll write follows the first one with bit 7 set by a transition, whatever bit 7 was before |
| `FaultReset.RequestsWait` | canopen_402_driver/src/motor.cpp:370-376 | The request alone, of handleRecover or handleInit, establishes that start, from any stored word and target state |
| `FaultReset.StepKeeps` | canopen_402_driver/src/command.cpp:65-66 | In Fault only a transition towards enabling or shutting down sets bit 7 of the stored word and nothing clears it; only the poll write takes the request |
| `PositionHandshake.LatchedArePosted` | canopen_402_driver/include/canopen_402_driver/profiled_position_mode.hpp:67-94 | With handleWrite, readState, setTarget, halts, recoveries, transitions and mode selection in any order, a drive that latches on a rising new-point bit, and any delays: the drive has latched exactly the first so many of the posted targets, in order and once each; all were accepted by setTarget; two in a row between starts differ |
| `PositionHandshake.LatchedWithinTwoRounds` | canopen_402_driver/include/canopen_402_driver/profiled_position_mode.hpp:67-94 | From any reachable moment with the mode selected and the drive reporting that it is enabled, a target held constant is the last one latched after two undisturbed poll rounds of readState and handleWrite |
| `PositionHandshake.StepKeeps` | canopen_402_driver/include/canopen_402_driver/profiled_position_mode.hpp:56-94 | Each step keeps posted, in flight and latched targets in balance |
| `Homing.HomedExactly` | canopen_402_driver/src/default_homing_mode.cpp:54-126 | For every status stream and deadlines, errors and lost bits included: success if and only if the four waits, each at the first status that satisfies it, end in time and without error, the last with target reached and home attained |
| `Homing.HomedIsWitnessed` | canopen_402_driver/src/default_homing_mode.cpp:54-126 | Success means that the four stages were witnessed in order, none with an error, and that the axis is at rest at the home position |
| `Homing.WitnessedIsHomed` | canopen_402_driver/src/default_homing_mode.cpp:66-123 | Without errors, and with the home position kept once attained, witnesses before the deadlines are enough |
| `Homing.DefaultHomingMode.ExecuteHoming` | canopen_402_driver/src/default_homing_mode.cpp:54-126 | True only for method 0 or after all four stages against any status stream; while the call goes on the execute flag is false up to the status that ends the first wait without an error and true from then on, up to the status at which it succeeds, and it is false on every return |
| `Homing.DefaultHomingMode.Wait` | canopen_402_driver/src/default_homing_mode.cpp:66-118 | A wait ends at the first status that satisfies it, or fails at the deadline |
| `MotionSafety.PlanIsSound` | canopen_fake_slaves/src/motion_generator.cpp:41-174 | Every plan from any position and admissible velocity to any target but the exact stopping point, in all four shapes: durations are not negative, the lower peak is within the limit, the plan starts where the axis is, keeps the velocity limit, is continuous within the limits at all times, ends at the target at rest, and once it has braked never passes the target |
| `MotionSafety.SmoothExactlyWhenRegular` | canopen_fake_slaves/src/motion_generator.cpp:57-59 | A plan is that smooth at all times exactly when its target is not the exact stopping point of a moving axis |
| `MotionSafety.SpeedNeverExceeds` | canopen_fake_slaves/src/motion_generator.cpp:41-116 | Over every run of updates with arbitrary targets the speed never exceeds maxVel, and a finished motion is at its target, at rest |
| `MotionSafety.FinishedExactly` | canopen_fake_slaves/src/motion_generator.cpp:118-174 | Over every run of updates from a fresh generator, re-targets included, a motion is reported finished if and only if the time since its plan began has reached the end of the plan and is past its acceleration |
| `MotionSafety.StepTells` | canopen_fake_slaves/src/motion_generator.cpp:41-116 | Every single update leaves the flag right, whatever it was before, after a reset too; elapsed time is counted from the update before the one that changed the target |
| `MotionSafety.MotionEnds` | canopen_fake_slaves/include/canopen_fake_slaves/cia402_slave.hpp:236-248 | The first update later than the end of the plan reports the motion finished, at the target and at rest, so a loop that waits for it ends |
| `MotionSafety.AccelerationIsSlope` | canopen_fake_slaves/src/motion_generator.cpp:118-174 | The acceleration reported is the slope of the velocity: full in the first part, none at the peak, which is at full speed, full the other way in the last |
| `MotionSafety.SamplesAreSmooth` | canopen_fake_slaves/src/motion_generator.cpp:41-116 | Over every run whose targets are never the exact stopping point, between any two samples the position changes by at most maxVel and the velocity by at most maxAcc times the elapsed time, re-targets in mid-motion included |
| `MotionSafety.StepKeeps` | canopen_fake_slaves/src/motion_generator.cpp:41-116 | One update, re-target or not, keeps the state a sample of its plan and joins smoothly |
| `MotionSafety.Arrives` | canopen_fake_slaves/src/motion_generator.cpp:95-102 | A state later than the end of its plan is at the target, at rest |
| `MotionSafety.ResetFits` | canopen_fake_slaves/src/motion_generator.cpp:207-230 | After a reset in mid-motion all this holds again |
| `MotionPlan.PartsFit` | canopen_fake_slaves/src/motion_generator.cpp:122-172 | Way and speed of neighbouring parts agree at each phase boundary |
| `MotionPlan.WayIsSteady` | canopen_fake_slaves/src/motion_generator.cpp:122-172 | Between any two times of a motion the way is at most the velocity limit times the time, and forward after braking |
| `MotionPlan.NeverOvershoots` | canopen_fake_slaves/src/motion_generator.cpp:122-172 | After the braking part the way never exceeds the distance |
| `MotionPlan.DecelerationFromEnd` | canopen_fake_slaves/src/motion_generator.cpp:139-145 | During deceleration the distance left is half the acceleration times the square of the time left |
| `MotionGenerator.MotionGenerator.Update` | canopen_fake_slaves/src/motion_generator.cpp:41-116 | One call replans when the reference changed and samples the plan, as one step function of the whole state |
| `MotionGenerator.MotionGenerator.CalculateTrapezoidalProfile` | canopen_fake_slaves/src/motion_generator.cpp:118-174 | The seven branches compute the sample of the plan at the elapsed time |
| `MotionGenerator.MotionGenerator.Replan` | canopen_fake_slaves/src/motion_generator.cpp:43-108 | The plan of the new reference, trapezoid first and triangle when no time is left at the peak |
| `MotionGenerator.MotionGenerator.Reset` | canopen_fake_slaves/src/motion_generator.cpp:207-230 | The state goes back to the initial position at rest; the clock readings and flags stay |
| `Hydraulic408.StreamIsClosedForm` | canopen_408_driver/src/hydraulic_axis.cpp:94-138 | After any run of commands, poll cycles and set points the next word streamed is a function of the last command and the poll cycles since: 15 of each word of the climb, fault reset first after a recovery, and the active word from then on |
| `Hydraulic408.EnabledExactly` | canopen_408_driver/src/hydraulic_axis.cpp:94-128 | The axis is enabled exactly when its last command was to enable, at least 60 poll cycles ago, or to recover, at least 75 |
| `Hydraulic408.RunIsClosedForm` | canopen_408_driver/src/hydraulic_axis.cpp:52-128 | Phase, ticks, enabled flag and word are that function too |
| `Hydraulic408.ReachableStates` | canopen_408_driver/src/hydraulic_axis.cpp:52-149 | In every reachable state enabled means idle phase and active word, ticks are within one dwell, and the set point is in range or a float request |
| `Hydraulic408.SetPointIsTheLast` | canopen_408_driver/src/hydraulic_axis.cpp:140-149 | The set point is the last one given, clamped, or neutral after a command to climb |
| `Hydraulic408.ClampedExactly` | canopen_408_driver/src/hydraulic_axis.cpp:140-149 | A set point within 16384 either way and the two float requests are kept, others are cut off there |
| `Hydraulic408.SentIsStreamedExactly` | canopen_408_driver/src/hydraulic_axis.cpp:140-149 | The set point that set_setpoint sends is the one streamed then exactly when nothing wrote another one between its store and its send |
| `Hydraulic408.HydraulicAxis.SetSetPoint` | canopen_408_driver/src/hydraulic_axis.cpp:140-149 | Stores and sends the clamped value |
| `Hydraulic408.HydraulicAxis.SpinOnce` | canopen_408_driver/src/hydraulic_axis.cpp:130-138 | Advances the climb and streams the current word and set point |
| `Hydraulic408.HydraulicAxis.AdvancePhase` | canopen_408_driver/src/hydraulic_axis.cpp:94-128 | One poll cycle of the climb |
| `PdoIndex.IndexReplacesScan` | canopen_base_driver/include/canopen_base_driver/lely_driver_bridge.hpp:173-225 | Where the mapping records have no gaps the index equals the scan for every object with a nonzero index |
| `PdoIndex.IndexAgreesExactly` | canopen_base_driver/include/canopen_base_driver/lely_driver_bridge.hpp:67-225 | For every dictionary and such object, index and scan agree except just where a gap hides all entries of the object from the scan |
| `PdoIndex.GapsHide` | canopen_base_driver/include/canopen_base_driver/lely_driver_bridge.hpp:201-213 | A dictionary with a gap on which they differ |
| `PdoIndex.MappedMeaning` | canopen_base_driver/include/canopen_base_driver/lely_driver_bridge.hpp:111-171 | An object is mapped just when one of the entries 1 to 8 of the 256 records from 0x1600, or from 0x1A00, is its index, its sub-index and some length put together |
| `PdoIndex.DriverDictionary.CreatePdoMapping` | canopen_base_driver/include/canopen_base_driver/lely_driver_bridge.hpp:67-73 | An object with a nonzero index is marked TPDO just when some 0x1A00+i entry maps it, RPDO just when only 0x1600+i entries do, never both, and nothing else is marked |
| `PdoIndex.DriverDictionary.Fetch` | canopen_base_driver/include/canopen_base_driver/lely_driver_bridge.hpp:111-171 | The nested loops mark exactly the objects that the 256 records name |
| `PdoIndex.DriverDictionary.CheckObjInPdo` | canopen_base_driver/include/canopen_base_driver/lely_driver_bridge.hpp:201-225 | Finds the object just when an entry before the first missing one names it |
| `PdoIndex.DriverDictionary.CheckObj` | canopen_base_driver/include/canopen_base_driver/lely_driver_bridge.hpp:173-199 | Finds the object just when the scan of one of the 256 records does |
| `Codec.PipelineExactly` | canopen_base_driver/src/lely_driver_bridge.cpp:370-456 | Packing, typed transmission, reception and unpacking return the value exactly when the type in the dictionary is at least as wide as the declared one or the value is not negative and fits it; otherwise the value modulo its size arrives; stale bytes never matter |
| `Codec.MatchingTypesRoundTrip` | canopen_ros2_control/include/canopen_ros2_control/canopen_system.hpp:100-227 | With matching types every command in range arrives truncated toward zero |
| `Codec.BoolRoundTrip` | canopen_ros2_control/include/canopen_ros2_control/canopen_system.hpp:105-110 | A truth value arrives as zero or one through a dictionary object of any type, as one for a command that is not a number |
| `Codec.Transfer` | canopen_base_driver/src/lely_driver_bridge.cpp:129-207 | For every interface and object type that is transmitted a truth value arrives as zero or one, and another command cut off after the point if the type in the dictionary is wide enough or the value fits, and modulo its size if not |
| `Codec.PackedArrives` | canopen_ros2_control/include/canopen_ros2_control/canopen_system.hpp:100-227 | The same for the pipeline of packing and transmission, over any stale word |
| `Codec.ObjectBytes` | canopen_base_driver/src/lely_driver_bridge.cpp:370-456 | How many bytes of the word each type of object uses; single precision is received but not transmitted |
| `Codec.TypeRanges` | canopen_ros2_control/include/canopen_ros2_control/canopen_system.hpp:100-227 | The widths and ranges of the six integer types |
| `Codec.ByteAt` | canopen_ros2_control/include/canopen_ros2_control/canopen_system.hpp:177-227 | The bytes of a word are the digits to base 256, least significant first |
| `Codec.CommandData.PrepareData` | canopen_ros2_control/include/canopen_ros2_control/canopen_system.hpp:177-227 | A truth value, also of a command that is not a number, is one byte of zero or one; for another type its first bytes read as the command cut off after the point, an unknown type takes the whole word; the bytes behind are left |
| `Codec.NodeData.SetRpdoData` | canopen_ros2_control/include/canopen_ros2_control/canopen_system.hpp:354-386 | The raw word and the value of its first bytes are stored under the object |
| `Codec.Bridge.TpdoTransmit` | canopen_base_driver/src/lely_driver_bridge.cpp:370-456 | A known object of a transmitted type, bool included, is set, in the dictionary too, to the value of its bytes and sent; for other types the old value is sent again |
| `Codec.Bridge.OnRpdoWrite` | canopen_base_driver/src/lely_driver_bridge.cpp:129-207 | The received value, also a truth value or a single-precision pattern, is queued zero-extended and stored in the dictionary; an unsupported type queues zero |
| `TargetScaling.RequestComesBack` | canopen_402_driver/include/canopen_402_driver/node_interfaces/node_canopen_402_driver_impl.hpp:758-782 | With inverse scales and consistent offsets a position request comes back within one device unit exactly when its scaled value is within one of the range of the target, unchanged exactly when it is a device value, and saturates otherwise |
| `TargetScaling.ScaledByMode` | canopen_402_driver/include/canopen_402_driver/node_interfaces/node_canopen_402_driver_impl.hpp:758-782 | Targets of the position modes are scaled and moved by the offset, those of the velocity modes scaled, others passed on |
| `TargetScaling.TargetIsMonotone` | canopen_402_driver/include/canopen_402_driver/mode_target_helper.hpp:45-82 | For a positive scale a larger request, infinities included, never gives a smaller target |
| `TargetScaling.CastSaturates` | canopen_402_driver/include/canopen_402_driver/mode_target_helper.hpp:58-73 | The stored target is the command truncated toward zero and clamped |
| `TargetScaling.ReportOf` | canopen_402_driver/include/canopen_402_driver/node_interfaces/node_canopen_402_driver.hpp:128-133 | The reported position differs from the request by what the target cut off, in application units |
| `TargetScaling.NodeDriver.SetTarget` | canopen_402_driver/include/canopen_402_driver/node_interfaces/node_canopen_402_driver_impl.hpp:744-788 | The scaled target goes to the motor of the channel, if the driver is active and there is one |
| `Lifecycle.UpAllExactly` | canopen_core/src/lifecycle_manager.cpp:284-305 | Bringing up succeeds exactly when its requests and answers are one list: the master unconfigured, configured, activated, then for each driver in order the master active, the driver unconfigured, configured, activated; otherwise it stops at the first bad answer |
| `Lifecycle.UpAllKeepsOrder` | canopen_core/src/lifecycle_manager.cpp:226-305 | For any number of devices and any answers no driver is configured before the master was activated and has just answered active; on success all drivers are active; on failure the later devices are untouched |
| `Lifecycle.DownAllExactly` | canopen_core/src/lifecycle_manager.cpp:307-326 | Bringing down succeeds exactly when its requests are, for every device not called "master" in order and at last for the master, to deactivate, to clean up and for the state, answered unconfigured; otherwise it stops with the first device that answers with another state |
| `Lifecycle.MasterByName` | canopen_core/src/lifecycle_manager.cpp:284-305 | A name that has "master" anywhere in it is the master for bringing up |
| `Lifecycle.AnswersAreLogged` | canopen_core/src/lifecycle_manager.cpp:119-184 | Every request is logged with its own answer |
| `Lifecycle.DownKeepsOrderExactly` | canopen_core/src/lifecycle_manager.cpp:307-326 | For all answers the master is deactivated only after every other device answered unconfigured, exactly when it is called just "master" or comes last in the map |
| `Lifecycle.LifecycleManager.BringUpAll` | canopen_core/src/lifecycle_manager.cpp:284-305 | The loop over the devices with its early exits, as a function of the answers |
| `Lifecycle.LifecycleManager.BringDownAll` | canopen_core/src/lifecycle_manager.cpp:307-326 | The loop over the devices with its early exit, and then the master, as a function of the answers |
| `Lifecycle.LifecycleManager.BringUpDriver` | canopen_core/src/lifecycle_manager.cpp:226-268 | The four guarded requests for one driver |
| `TriggerHandshake.OneInvocationPerCall` | canopen_ros2_controllers/include/canopen_ros2_controllers/cia402_device_controller.hpp:96-130 | For every interleaving of service call and control loop with no failed reset of the feedback: the i-th completed call returned the result of the i-th driver invocation, and with no call outstanding there is no other invocation and both cells are empty |
| `TriggerHandshake.StaleExactly` | canopen_ros2_controllers/include/canopen_ros2_controllers/cia402_device_controller.hpp:119-124 | That proviso is exact: a later call can complete without an invocation just when the reset of the feedback failed |
| `TriggerHandshake.FairRunsCompleteExactly` | canopen_ros2_controllers/include/canopen_ros2_controllers/cia402_device_controller.hpp:108-129 | A waiting call completes in every run that contains the read, clear, invocation and response of the control loop and then the poll and the two resets, with anything in between, if and only if it is not lost |
| `TriggerHandshake.CompletesUnlessLost` | canopen_ros2_controllers/include/canopen_ros2_controllers/cia402_device_controller.hpp:108-117 | A lost call completes in no run at all |
| `TriggerHandshake.SentIsLostExactly` | canopen_ros2_control/include/canopen_ros2_control/cia402_system.hpp:42-47 | A call is lost from the start just when its command was not written or was written between the read and the clear of is_commanded |
| `TriggerHandshake.StepKeeps` | canopen_ros2_control/src/cia402_system.cpp:410-438 | Each step keeps the invariant between the cells, both threads, the invocations and the completed calls |
| `TriggerHandshake.MotorTriggerCommand.IsCommanded` | canopen_ros2_control/include/canopen_ros2_control/cia402_system.hpp:42-47 | Reports and clears a command, as the two steps of the control loop |
| `TriggerHandshake.MotorTriggerCommand.SetResponse` | canopen_ros2_control/include/canopen_ros2_control/cia402_system.hpp:49 | Writes the result into the feedback cell, as the step of the control loop |

## Left out

- Lookup: the transition table is a function of two states, because it is built once before main and never changes; the insertions into the map are not modelled.
- Homing.WitnessedIsHomed: a readable sufficient condition for streams without errors that keep the attained bit; HomedExactly covers every stream.
- MockSlave.StatusWordTracksState: a control word is one atomic step; MidwayStatusExactly says what a mode thread that transmits between two of its bit updates can show.
- MockSlave.CIA402MockSlave.OnWriteControlWord: one atomic step, because the slave handles one write at a time; the mode threads only flip status bits of their own between steps, and their trajectories are not modelled.
- MockSlave.CIA402MockSlave.OnOperationEnabled: joining a mode thread waits for it to end, which is taken for granted.
- PositionHandshake.LatchedArePosted: the drive latches, acknowledges and drops the acknowledgement at once on each control word, and the value of 0x607A arrives before the control word that follows it; a drive that ignores set points is not modelled, and neither is the handler of another mode being selected, or handleInit, meanwhile.
- MotorSteps.Motor402.HandleInit: the handler objects of the registration map are values here, and while homing runs the deadlines of its waits are positions in what is polled.
- MotorRuns.SwitchModeIsTransactional: steps of other calls that write the selection are excluded here; KeepsHandlerExactly says which of them matter.
- MotionSafety.SamplesAreSmooth: real arithmetic, with the absolute value over the reals and the square root passed in; rounding is not modelled.
- TargetScaling.RequestComesBack: rounding of doubles is not modelled.
- Codec.CommandData.PrepareData: a command that is not a number for an integer type, or outside its range, whose conversion is undefined, is not modelled.
- Codec.NodeData.SetRpdoData: a byte other than zero and one that is read as a bool, which is undefined, is not modelled.
- Codec.Bridge.TpdoTransmit: nor is such a byte in the word of a bool object.
- Codec.Bridge.OnRpdoWrite: a single-precision value is given by its bit pattern; its conversion is not modelled.
- Lifecycle.UpAllKeepsOrder: the devices are given in the order of the map; reading them from the configuration is not modelled.
- TriggerHandshake.OneInvocationPerCall: one outstanding call of one trigger; a shutdown that ends waiting calls is not modelled.
- Channel offsets of object indices, which are a fixed addition per motor.
- SDO transfers and the mutual exclusion around them, PDO timing, boot and heartbeat: a transfer is one delivery step. Frames are delivered in order.
- Nodes, publishers, services, parameters and launch files; configuration parsing; diagnostics, fault names, joystick and inclinometer code.
- The percent conversion of the 408 node.
