# Verified models of the bus controller, the chain engine and the s_engine

A Dafny model of three stateful engines, with proofs of what they keep over whole runs. `dafny verify
dfyconfig.toml` checks everything.

**The Layer-2 bus command stack** (`linux/bus_controller`). A demux gives every request a 16-bit id and
keeps a 24-entry table of requests awaiting a reply, a timeout or the loss of the link. Above it a
tracker has one slot per slave: a five-deep ring of commands, one command in flight (IDLE, SENT,
INFLIGHT), two resends, an execution deadline, an interlock gate. Completion callbacks may submit again
and so send from inside the demux's own loops.

- `BusTypes`, `BusModel`: state and transition functions; `BusStack`: the same as classes with arrays
  and rings, each method proved equal to its transition function.
- `BusInvariant`, `BusCoupling`, `BusTheorems`: conservation and order, three transmissions at most, the
  coupling of the two tables, no cross-talk. `BusWrap`: what the 16-bit id costs. `BusReset`: what a reset
  loses when callbacks submit to the slave being reset. `BusLink`: loss of the link. `BusSweep`: what a timeout
  sweep may visit. `BusTiming`: how long a command can take. `BusGate`, `BusTrip`: the interlock. `BusAck`: what
  an ACK, a NAK and a missed deadline do. `BusProgress`: that what can be sent is sent. `BusMoves`: the moves
  every call is made of.
- `CtlProvision`, `CtlReconcile`, `CtlEvents`: the controller's provisioning chain, its interlock
  reconciliation and its event ring, each with the class that is proved equal to its functions.

**The chain engine** (`cfl_avr/runtime`). Events from a ring are offered to every enabled chain; nodes
get a lazy INIT, then the event; return codes disable, reset or terminate, with reverse-order sweeps.

- `CflModel`: the engine on values; `CflEngine`: bit-packed bitmaps, scratch array and event ring in
  place, proved equal to it.
- `CflLife`: a monitor that watches one chain's callbacks and knows nothing of the engine; `CflRun`: every
  execution satisfies it. `CflTrace`: the same at every position of the trace, and the converse.
  `CflAlone`: chains do not influence each other. `CflCalls`: which user functions are called. `CflCodes`: what
  return codes, node kinds and control calls bring about.

**The s_engine interpreter** (`s_engine/runtime`). Trees are flat token arrays with distances to closing
tokens; composites keep their place in a byte or word of node state across ticks; calls use a stack with
frames.

- `SeTree`: trees, their encoding, and the walks over it. `SeNodes`: invocation and `se_sequence`.
  `SeMachine`: `se_state_machine`; `SeField`: `se_field_dispatch`; `SeFork`: `se_fork_join`; `SeWhile`:
  `se_while`. `SeBranch`: that selected branches run. `SeInterp`: all of it on tokens and node states, as the program does.
- `SeStackModel`, `SeStack`: the parameter stack on values and in place, and the calling convention.

`Options`, `Rings` and `Arith` hold what several models share: optional values, ring buffers read as
queues, and remainders.

How the proofs are arranged: a function on values says what an operation does, a method does it in place
and is proved to compute that function, and lemmas prove what the function keeps. An *execution* is a list
of states from the initial one, each the result of a public call or link callback on the one before. Most of
what is said of the bus stack holds of every execution (`BusModel.IsExecution`); conservation of commands holds
of those in which no callback of a reset submits to the slave being reset (`BusModel.IsRun`).
Everything the engines do not control is arbitrary but fixed: whether the link takes a frame, what clocks
read and what callbacks do (`BusTypes.Env`), what user functions answer (`CflModel.UserFn`,
`SeNodes.Oracle`, each given the length of the history so far, so that any dependence on the outside is
covered). Histories (`hist`, `trace`, `calls`, `log`) record the calls out of an engine; the engines never read them.
The flags `clean` (no request id was given out while still pending) and `rearmed` (a chain with an
initialized node was enabled), and the place `at` of a pending request's registration, are history too. Loops
that need not end in the program (the drain loop of a reset, the tick loop of a sequence, the pump) are bounded
by a number of turns, and what is said of them holds for every such bound.

## Where the code and its documentation part

- `linux/bus_controller/demux.h:13` says that request ids are never reused. The wire id is the counter cut
  to 16 bits. `BusTheorems.CleanIsExact` gives the exact condition under which pending ids stay distinct, and
  `CleanBelowWrap` shows that it holds before the counter wraps. Afterwards a stale reply can complete
  another command (`BusWrap.StaleReplyAtWrap`), which `linux/bus_controller/demux.h:10-11` rules out.
- 0xFFFF is also the error value of a send (`linux/bus_controller/demux.c:175`), so that a command given it
  is sent and stays queued (`BusWrap.TransmittedYetQueued`). It can then be on the wire more than three times
  (`BusWrap.FourFramesAtWrap`); the bound is three plus those frames
  (`BusTheorems.AtMostThreeTransmissions`).
- `linux/bus_controller/controller.h:67` says that a drained payload is valid until the next drain. It can be
  overwritten before that, by the push that fills the ring again and as far as that push's own payload
  reaches (`CtlEvents.DrainedPayloadLasts`).
- `on_prov_reply` does not look at the request id, so a chain restarted with a reply outstanding can reach
  PROV_DONE without having been carried out (`CtlProvision.RestartMisleadsIff`).
- A timeout sweep may visit requests its own callbacks registered (`BusSweep.SweepSparesReplacements` says
  exactly when), and the unsigned age of a request newer than the sweep's clock reading wraps
  (`BusSweep.SweepEatsSecondReplacement`).
- A callback that submits to its own slave during `cmd_tracker_reset` can make it transmit the command just
  reported done and never complete the next one (`BusReset.SentAfterDone`, `ResetLosesIff`), or keep the
  drain loop from ending (`BusReset.ResubmittingEndsIff`).
- `s_engine/runtime/s_engine_builtins_quads.h:654` says that a frame stays active across ticks. Every tick starts
  with an empty stack, so it does not (`SeStackModel.CallAcrossTicks`).
- `s_expr_stack_push_frame` lets a nested call take params from its caller's variables
  (`SeStackModel.ParamsMustBeScratch`).
- A sequence of more than 255 parameters can never complete (`SeNodes.CanFinishIff`).
- `s_engine/dsl_tests/docs/composite_functions/README_field_dispatch.md:99-172` gives `se_field_dispatch` and
  `se_state_machine` different semantics, and says that the former passes DISABLE and TERMINATE of a branch
  on. Its branches cannot tell it from the latter (`SeField.DispatchIsMachine`).
- `s_engine/dsl_tests/docs/composite_functions/README_fork_join.md:34` says that a predicate among the
  children is evaluated once. Dispatching a predicate does not mark it as initialized, so it is evaluated in
  every tick, unless its own function sets the flag, as two of them do
  (`s_engine/runtime/s_engine_builtins_pred.h:355`); `SeFork.OneTickEach` says which is which.
- `s_engine/dsl_tests/docs/composite_functions/README_while.md` says that a predicate gets INIT first and
  that a body's SE_DISABLE is passed on. It gets no INIT, and after such an answer the loop is stuck
  (`SeWhile.LoopStuckIff`).

## Model

| member | source | states |
|---|---|---|
| `BusTheorems.CommandsConserved` | linux/bus_controller/cmd_tracker.c:71-192 | at every moment of every execution in which callbacks of a reset spare the slave being reset, and for every slot, the accepted handles are the completed ones, then the one in flight, then the queue; handles rise, so none is lost, doubled or reordered |
| `BusTheorems.ExactlyOneEntry` | linux/bus_controller/cmd_tracker.c:89-128 | in every execution, whatever callbacks do, a slot is busy exactly when it has a command in flight, and then its current id is pending under its name, registered by a frame of that very command; it is the only pending request with that id as long as no id was given out while pending |
| `BusTheorems.AtMostThreeTransmissions` | linux/bus_controller/cmd_tracker.c:8-11 | in every execution, whatever callbacks do, a command is on the wire at most three times, not counting frames that were given the id 0xFFFF while it was queued; at most three of its frames carry another id |
| `BusTheorems.CleanBelowWrap` | linux/bus_controller/demux.c:171-194 | while the id counter has not passed 0x10000, no id was still pending when it was given out |
| `BusTheorems.CleanIsExact` | linux/bus_controller/demux.c:203-231 | a registration keeps pending ids distinct if and only if the counter cut to 16 bits is not the id of a pending request |
| `BusTheorems.NoCrossTalk` | linux/bus_controller/cmd_tracker.c:120-128 | in any state of any execution, resolving a pending request completes at most one command, at once; unless another request is pending with the same id under the same slot's name, it is the command whose frame registered the request; a shell caller is always told of its own request |
| `BusTheorems.ReplyReachesItsCommand` | linux/bus_controller/cmd_tracker.c:120-128 | the converse: a reply with a busy slot's current id completes that slot's command first if and only if the first pending request with that id is under the slot's name; so always when no other request has the id |
| `BusTheorems.FinishHistory` | linux/bus_controller/cmd_tracker.c:71-82 | a completion records exactly one result, before anything its callback does |
| `BusWrap.TransmittedYetQueued` | linux/bus_controller/cmd_tracker.c:106-118 | a pumped command leaves its queue if and only if its id is not 0xFFFF; at 0xFFFF the frame is sent and an entry pending, yet the command stays queued and the frame is a stray |
| `BusWrap.FourFramesAtWrap` | linux/bus_controller/cmd_tracker.c:89-118 | an execution in which one command is put on the wire four times, the first with the id 0xFFFF |
| `BusWrap.StaleReplyAtWrap` | linux/bus_controller/demux.c:77-97 | an execution in which the reply to a request pending since before a command existed completes that command, because its id came round |
| `BusReset.ResetLosesIff` | linux/bus_controller/cmd_tracker.c:141-154 | whatever the callbacks of a reset do, when it ends everything the slave accepted is completed if and only if the link took no frame of it meanwhile; otherwise exactly one command is never completed; with the link down or the interlock tripped none is |
| `BusReset.OneSubmissionLosesIff` | linux/bus_controller/cmd_tracker.c:141-154 | if one callback submits one command to its own slave, the reset ends, and it loses a command if and only if that submission is taken, which the state before tells: which callback, size, room, gate, link, table, next id |
| `BusReset.SentAfterDone` | linux/bus_controller/cmd_tracker.c:146-151 | the frame then sent is that of the command just reported done |
| `BusReset.SecondCommandLost` | linux/bus_controller/cmd_tracker.c:141-154 | an execution and a callback with which a reset loses a command |
| `BusReset.ResubmittingEndsIff` | linux/bus_controller/cmd_tracker.c:146-151 | with the link up or down, and callbacks that submit again whatever is aborted, the reset of a slot ends if and only if it had nothing to abort, or a single command and, with the gate and the link open, the link takes a frame under some later id before frames given 0xFFFF have filled the table; with two commands or more it never ends |
| `BusTheorems.PerformQuiet` | linux/bus_controller/cmd_tracker.c:106-118 | whatever a callback submits completes nothing |
| `BusInvariant.Reachable` | linux/bus_controller/cmd_tracker.c:71-280 | conservation, order and bounded transmission hold in every state of every execution in which callbacks of a reset spare the slave being reset |
| `BusInvariant.StepInv` | linux/bus_controller/cmd_tracker.c:89-280 | every public call and every link callback keeps order and bounded transmission, and conservation too unless callbacks of a reset submit to the slave being reset |
| `BusInvariant.AlwaysSound` | linux/bus_controller/cmd_tracker.c:71-280 | order and bounded transmission hold in every state of every execution, whatever callbacks do |
| `BusInvariant.ResetFromSound` | linux/bus_controller/cmd_tracker.c:141-154 | a reset keeps them after any number of turns of its loops, whatever its callbacks do |
| `BusCoupling.AlwaysCoupled` | linux/bus_controller/cmd_tracker.c:89-128 | in every state of every execution, whatever callbacks do, every busy slot has a pending request that a frame of its own command registered, and every pending request was registered by the event it says |
| `BusCoupling.StepCoupled` | linux/bus_controller/demux.c:62-231 | every public call and every link callback keeps this |
| `BusCoupling.ResendCoupled` | linux/bus_controller/cmd_tracker.c:194-210 | a resend keeps it, whether its send fails, is given 0xFFFF or leaves the old entry behind as an orphan |
| `BusCoupling.ResolveCoupled` | linux/bus_controller/demux.c:62-70 | a resolution keeps it, whether awaited, stale or from the shell lane |
| `BusCoupling.ResetFromCoupled` | linux/bus_controller/cmd_tracker.c:141-154 | a reset keeps it after any number of turns of its loops, whatever its callbacks do |
| `BusInvariant.ResendInv` | linux/bus_controller/cmd_tracker.c:194-210 | a resend keeps the invariant |
| `BusInvariant.PumpInv` | linux/bus_controller/cmd_tracker.c:106-118 | a pump keeps the invariant, whether its send succeeds or not |
| `BusInvariant.ResolveInv` | linux/bus_controller/demux.c:62-70 | a resolution keeps the invariant, whether awaited, stale or from the shell lane |
| `BusInvariant.ResetFromInv` | linux/bus_controller/cmd_tracker.c:141-154 | a reset whose callbacks spare the slave being reset, but may submit to any other, ends and conserves commands |
| `BusInvariant.AbortFrontIs` | linux/bus_controller/cmd_tracker.c:146-151 | such a callback may as well run after the ring has moved on |
| `BusInvariant.PollFromInv` | linux/bus_controller/cmd_tracker.c:260-280 | a poll over all slots keeps the invariant |
| `BusLink.LinkBounce` | linux/bus_controller/demux.c:103-111 | in any state of any execution, after link loss no request is pending, every slot is idle, each slave's completions grew by exactly its in-flight command, with LINK_DOWN, and its queue still begins with what it held |
| `BusLink.LinkBounceKeepsQueues` | linux/bus_controller/controller.c:480-486 | if callbacks submit nothing, link loss leaves every queue unchanged |
| `BusSweep.UnvisitedUntouched` | linux/bus_controller/demux.c:56-70 | the entries beyond the resolved index are untouched if and only if the callback registers no more requests than there are free entries at or below it |
| `BusSweep.SweepSparesReplacements` | linux/bus_controller/demux.c:137-148 | every request a sweep examines was there when it began if and only if each resolution on the way registers no more than fits at or below its index |
| `BusSweep.SweepIsModest` | linux/bus_controller/demux.c:137-148 | if no callback performs more than b actions, and below every pending request there are b free entries for each pending request up to it, the sweep never visits a request it gave rise to |
| `BusSweep.TrackerIsModest` | linux/bus_controller/cmd_tracker.c:106-128 | the tracker alone never registers more than that, so its replacements are never visited by the sweep that caused them |
| `BusSweep.SweepEatsSecondReplacement` | linux/bus_controller/demux.c:137-148 | an execution in which a callback starts two requests, with the clock past the sweep's reading, and the second one is timed out at once by that same sweep |
| `BusTiming.BoundedLifetime` | linux/bus_controller/cmd_tracker.c:260-280 | in every execution, whatever callbacks do, with a clock that does not run back and polls at most G apart while a command is in flight, a command that became SENT at T is no longer in flight at T + 3 (1500 + G) + exec_timeout_ms + 1000 + G |
| `BusTiming.RunPunctual` | linux/bus_controller/cmd_tracker.c:260-280 | in such executions every timer is within its limit and no potential ever exceeds what the first transmission granted |
| `BusTiming.StepTime` | linux/bus_controller/cmd_tracker.c:194-280 | every call keeps this, resends and acknowledgements included |
| `BusGate.FaultedQueueIsHeld` | linux/bus_controller/cmd_tracker.c:106-108 | while a slave is flagged, no call but a flag update for it or a reset takes a command from its queue or puts a new one in flight |
| `BusTrip.GatedIffTripped` | linux/bus_controller/cmd_tracker.c:212-221 | in every execution a registered slave's slot is gated if and only if the last flag update for it since it was registered had bit 0 set |
| `BusTrip.NothingStartsTripped` | linux/bus_controller/cmd_tracker.c:106-118 | in every execution, from a trip to its clearing, every frame to the slave is of the command that was in flight when the interlock tripped, and no other command of it is ever in flight; so no first transmission |
| `BusTrip.ClearingResumes` | linux/bus_controller/cmd_tracker.c:217-220 | on the falling edge, with the slot idle, the link taking frames, room in the table and an id other than 0xFFFF, the front of the queue goes on the wire at once |
| `BusTrip.FlagSets` | linux/bus_controller/cmd_tracker.c:212-221 | a flag update gates or opens the slot of its slave as bit 0 says |
| `BusTrip.StepGated` | linux/bus_controller/cmd_tracker.c:106-280 | every other call leaves the gate as it is, and starts nothing of a gated slave |
| `BusMoves.StepPath` | linux/bus_controller/cmd_tracker.c:71-280 | every public call and link callback but an ACK, a flag update and a registration comes to a list of moves (accept, pump, resend, finish, free, send for the shell), and only a reset also reports, drops and clears |
| `BusAck.AckTakes` | linux/bus_controller/cmd_tracker.c:194-201 | the awaited ACK makes the slot INFLIGHT from this moment, with its retries back at 0, and is counted; any other ACK changes nothing |
| `BusAck.NoFrameAfterAck` | linux/bus_controller/cmd_tracker.c:194-201 | in every execution, after the awaited ACK of a command no further frame of it goes out |
| `BusAck.RunsItsTime` | linux/bus_controller/cmd_tracker.c:268-274 | in every execution, an acknowledged command stays INFLIGHT and nothing of its slave is reported as long as there is no reply, sweep, loss of the link or reset, and every poll comes before exec_timeout_ms + 1000 ms from its ACK |
| `BusAck.NakCosts` | linux/bus_controller/cmd_tracker.c:203-210 | the awaited NAK costs one of three attempts; the last one completes the command with BUSY |
| `BusAck.NakIgnored` | linux/bus_controller/cmd_tracker.c:203-210 | any other NAK changes nothing |
| `BusAck.PollCosts` | linux/bus_controller/cmd_tracker.c:260-280 | a poll resends a command unacknowledged for 1500 ms, or completes it with TIMEOUT after the third attempt, and completes with TIMEOUT one that has had its time; otherwise it leaves it alone |
| `BusProgress.SendsExactly` | linux/bus_controller/demux.c:168-231 | a frame goes out if and only if it fits, the table has room, and the link is up and takes it; an id is spent if and only if it fits and there is room |
| `BusProgress.ShellSends` | linux/bus_controller/demux.c:168-200 | a shell request goes out under the same conditions, is then pending under its caller's name, and no pending request is lost |
| `BusProgress.SubmitTells` | linux/bus_controller/cmd_tracker.c:169-192 | a submission is refused, with handle 0, if and only if its arguments are too long, the slave is not registered or its queue is full; an accepted one gets the next handle and is recorded first |
| `BusProgress.SubmitStarts` | linux/bus_controller/cmd_tracker.c:169-192 | an accepted command goes behind the queue; the front goes out at once if and only if the slot is idle, not gated and the link takes a frame |
| `BusProgress.PumpStarts` | linux/bus_controller/cmd_tracker.c:106-118 | a pump of an idle slot starts the front of its queue under the next id if and only if the link takes a frame under a usable id |
| `BusProgress.PollStarts` | linux/bus_controller/cmd_tracker.c:260-280 | so does every poll |
| `BusProgress.CompletionStartsNext` | linux/bus_controller/cmd_tracker.c:120-128 | a completion starts the next command before the call returns, whatever its callback did, if the slot is idle, not gated and the link takes a frame |
| `BusProgress.NextFollows` | linux/bus_controller/cmd_tracker.c:120-128 | with a callback that does nothing, that is the command that was next in the queue |
| `BusProgress.SweepExactly` | linux/bus_controller/demux.c:137-148 | a pending request is still in its place after a sweep if and only if the sweep is off or it was not overdue, whatever callbacks do |
| `BusProgress.ResetClears` | linux/bus_controller/cmd_tracker.c:141-154 | a reset that ends leaves every slot cleared, and every completion it reports carries its status |
| `BusModel.RunExists` | linux/bus_controller/cmd_tracker.c:130-192 | every list of calls has an execution in every environment, so the statements about executions are about all of them |
| `BusStack.Demux.PendingAlloc` | linux/bus_controller/demux.c:56-60 | the first free entry |
| `BusStack.Demux.PendingFind` | linux/bus_controller/demux.c:49-54 | the first entry waiting for the id |
| `BusStack.Demux.Send` | linux/bus_controller/demux.c:168-231 | allocation, the call to the link, registration, with the id consumed even when the link refuses |
| `BusStack.CmdTracker.SlotForAddr` | linux/bus_controller/cmd_tracker.c:58-62 | the first slot in use with that address |
| `BusStack.CmdTracker.SendInflight` | linux/bus_controller/cmd_tracker.c:89-103 | transmission of the slot's command; the slot is SENT exactly when the id is not 0xFFFF |
| `BusStack.CmdTracker.PumpSlot` | linux/bus_controller/cmd_tracker.c:106-118 | the queue's front goes out if the slot is idle and not faulted, and stays queued if the send fails |
| `BusStack.CmdTracker.Submit` | linux/bus_controller/cmd_tracker.c:169-192 | the ring gets the command at its tail, or 0 is returned |
| `BusStack.CmdTracker.CompleteInflight` | linux/bus_controller/cmd_tracker.c:71-82 | the slot is free before the callback runs |
| `BusStack.CmdTracker.OnTrackerReply` | linux/bus_controller/cmd_tracker.c:120-128 | stale guard, completion, next command |
| `BusStack.CmdTracker.OnAck` | linux/bus_controller/cmd_tracker.c:194-201 | SENT becomes INFLIGHT for the awaited id only |
| `BusStack.CmdTracker.OnNak` | linux/bus_controller/cmd_tracker.c:203-210 | bounded resend, then completion with BUSY |
| `BusStack.CmdTracker.OnFlagged` | linux/bus_controller/cmd_tracker.c:212-221 | bit 0 gates the queue; its falling edge pumps |
| `BusStack.CmdTracker.PollSlot` | linux/bus_controller/cmd_tracker.c:263-279 | ACK timeout, execution deadline or pump, by the slot's state |
| `BusStack.CmdTracker.Poll` | linux/bus_controller/cmd_tracker.c:260-280 | all slots in order against one clock reading |
| `BusStack.CmdTracker.AbortFront` | linux/bus_controller/cmd_tracker.c:147-150 | the front reported, its callback run, and only then the ring advanced |
| `BusStack.CmdTracker.AbortQueue` | linux/bus_controller/cmd_tracker.c:146-151 | the drain loop, callbacks that submit included, for a bounded number of turns |
| `BusStack.CmdTracker.ResetSlot` | linux/bus_controller/cmd_tracker.c:141-154 | the in-flight command, then the ring, then the slot cleared, callbacks that submit included |
| `BusStack.CmdTracker.Reset` | linux/bus_controller/cmd_tracker.c:141-154 | all slots in order |
| `BusStack.CmdTracker.AddSlave` | linux/bus_controller/cmd_tracker.c:156-167 | idempotent; fails exactly when no slot is free |
| `BusStack.Controller.Resolve` | linux/bus_controller/demux.c:62-70 | the entry is freed, then its callback runs |
| `BusStack.Controller.OnShellReply` | linux/bus_controller/demux.c:77-97 | a reply resolves the entry with its id, or is dropped |
| `BusStack.Controller.OnLinkState` | linux/bus_controller/demux.c:103-111 | going down resolves every entry still in use when its index is reached |
| `BusStack.Controller.DemuxPoll` | linux/bus_controller/demux.c:137-148 | every entry old enough when its index is reached is timed out |
| `BusStack.RingPush` | linux/bus_controller/cmd_tracker.c:179-189 | a write at the tail of a slot's ring that is not full appends to its queue |
| `BusStack.RingPop` | linux/bus_controller/cmd_tracker.c:115-116 | advancing the head of a slot's ring drops the front of its queue |
| `CflRun.LifecycleDiscipline` | cfl_avr/README.md:105-115 | in every execution that enables no chain with an initialized node, each chain's callbacks satisfy the monitor (INIT and TERMINATE alternate, events only in between, INITs of one arming rise), and the monitor's live nodes are exactly the initialized bits; a stopped chain has none |
| `CflTrace.EverySweepMirrorsInit` | cfl_avr/runtime/cfl_engine.c:275-291 | wherever in the trace of such an execution a chain is switched off, by a call, from a callback or by a return code in mid-dispatch, TERMINATE has just gone to exactly its live nodes in reverse INIT order |
| `CflTrace.DisciplineIff` | cfl_avr/runtime/cfl_engine.c:262-273 | the discipline holds on every chain if and only if no chain with an initialized node was ever enabled |
| `CflTrace.StepWatched` | cfl_avr/runtime/cfl_engine.c:293-459 | every main-context call keeps both, control calls made inside callbacks included |
| `CflRun.DelayBarrier` | cfl_avr/runtime/cfl_engine.c:130-152 | an enabled TIME_DELAY lets an event pass if and only if it is a tick at which the unsaturated sum of its ticks since its INIT, this one included, reaches the target; otherwise nothing of the chain but the delay changes; on its first event it gets INIT in the same visit |
| `CflRun.NothingPassesAWaitingDelay` | cfl_avr/runtime/cfl_engine.c:394-442 | in every such execution no node after a waiting delay is initialized, and the delay's scratch is the saturated sum of its ticks |
| `CflRun.RunOk` | cfl_avr/runtime/cfl_engine.c:367-459 | between calls no chain is current and, unless enable was misused, every chain is sound |
| `CflRun.WalkOk` | cfl_avr/runtime/cfl_engine.c:394-442 | a dispatch of a sound chain leaves all chains sound, whatever its nodes return |
| `CflRun.TurnOk` | cfl_avr/runtime/cfl_engine.c:410-440 | so does one turn of its loop, for each of the five return codes |
| `CflLife.DisableOk` | cfl_avr/runtime/cfl_engine.c:275-291 | a disable leaves a sound, stopped chain and the trace of a complete reverse sweep |
| `CflLife.EnableOk` | cfl_avr/runtime/cfl_engine.c:262-273 | enabling a stopped chain leaves it sound |
| `CflLife.ControlOk` | cfl_avr/runtime/cfl_engine.c:293-316 | control calls never touch the chain being walked and keep all others sound |
| `CflLife.SweepFrame` | cfl_avr/runtime/cfl_engine.c:279-282 | the sweep calls TERMINATE on the initialized nodes last to first and changes no bit |
| `CflAlone.ChainsStandAlone` | cfl_avr/README.md:92-94 | with no control nodes and functions that touch only their own node, draining any queue ends every chain in the state, and with the callbacks, of its own fold over the events |
| `CflAlone.BroadcastAlone` | cfl_avr/runtime/cfl_engine.c:447-459 | one event gives each chain exactly what it would do alone |
| `CflAlone.Pump` | cfl_avr/runtime/cfl_engine.c:447-459 | for a module whose functions queue nothing the drain ends with an empty queue and no panic |
| `CflAlone.PumpEnds` | cfl_avr/runtime/cfl_engine.c:447-459 | the pump's loop ends after one turn per queued event, in that state |
| `CflAlone.TurnsStandAlone` | cfl_avr/runtime/cfl_engine.c:447-459 | in every execution of such a module, after as many turns as events were queued every chain is as its own fold over them left it |
| `CflCalls.CallsFollowMarks` | cfl_avr/runtime/cfl_engine.c:101-238 | in every execution the user functions really called are, one by one and in order, those the node kinds and the marks ask for: M_CALL its function for INIT, event and TERMINATE, ONE_SHOT on INIT only, INIT_TERM its first function on INIT and its second on TERMINATE, WHILE and VERIFY on events only, no other; each was given what the last call for its node left |
| `CflCalls.AcquireRelease` | cfl_avr/runtime/cfl_engine.c:218-248 | in every execution that enables no chain with an initialized node, the calls of an INIT_TERM node are acquire and release by turns, beginning with acquire, and one is unmatched exactly while the node is initialized; none once its chain is off |
| `CflCodes.ReturnCodes` | cfl_avr/runtime/cfl_engine.c:410-440 | CONTINUE goes on to the next node; HALT ends the walk with the chain as it is; DISABLE drops exactly this node, TERMINATE first, and goes on; RESET ends it with the chain swept and every node armed, uninitialized, scratch 0; TERMINATE ends it with the chain swept and every bit clear |
| `CflCodes.PassesOver` | cfl_avr/runtime/cfl_engine.c:400-404 | a node that is not armed is passed over |
| `CflCodes.KindAnswers` | cfl_avr/runtime/cfl_engine.c:101-238 | what each node kind answers to an event, in terms of what its function answered |
| `CflCodes.SelfControl` | cfl_avr/runtime/cfl_engine.c:185-216 | RESET_SELF, and VERIFY whose function does not answer CONTINUE, restart their chain; TERMINATE_SELF stops it; WHILE holds it as long as its function answers CONTINUE |
| `CflCodes.ControlDoes` | cfl_avr/runtime/cfl_engine.c:293-316 | enable, disable and reset bring the chain to its state and touch no other; on the chain being walked, or out of range, each panics |
| `CflCodes.SendQueues` | cfl_avr/runtime/cfl_engine.c:332-346 | an event waits behind those sent before it; one too many panics |
| `CflCodes.ControlNodes` | cfl_avr/runtime/cfl_engine.c:154-183 | the INIT of a control node enables, or disables, every chain it names |
| `CflCodes.StartsAuto` | cfl_avr/runtime/cfl_engine.c:367-389 | after the start exactly the auto-start chains are on |
| `CflCodes.TurnOffers` | cfl_avr/runtime/cfl_engine.c:447-459 | a turn of the pump takes the oldest event and offers it, in order, to every chain that is on when its turn comes, until a panic |
| `CflCodes.PanicStops` | cfl_avr/runtime/cfl_engine.c:447-459 | nothing happens after a panic |
| `CflEngine.BmGet` | cfl_avr/runtime/cfl_engine.c:36-38 | the bit of the bitmap at the index |
| `CflEngine.BmSet` | cfl_avr/runtime/cfl_engine.c:39-41 | sets that bit and no other |
| `CflEngine.BmClr` | cfl_avr/runtime/cfl_engine.c:42-44 | clears that bit and no other |
| `CflEngine.BmZero` | cfl_avr/runtime/cfl_engine.c:45-48 | clears the first n bits |
| `CflEngine.SetByte` | cfl_avr/runtime/cfl_engine.c:39-41 | or-ing a one-bit mask changes that bit of a byte only |
| `CflEngine.ClearByte` | cfl_avr/runtime/cfl_engine.c:42-44 | so does and-ing its complement |
| `Rings.Push` | cfl_avr/runtime/cfl_engine.c:336-339 | a write at the tail of any ring that is not full appends to the queue it stands for |
| `Rings.Pop` | cfl_avr/runtime/cfl_engine.c:355-359 | advancing its head drops the front |
| `CflEngine.Engine.EngineInit` | cfl_avr/runtime/cfl_engine.c:367-389 | from any memory of the right size: all clear, then the auto-start chains armed |
| `CflEngine.Engine.ChainEnableInternal` | cfl_avr/runtime/cfl_engine.c:262-273 | the chain on, all its nodes armed, none initialized, scratch zero |
| `CflEngine.Engine.ChainDisableInternal` | cfl_avr/runtime/cfl_engine.c:275-291 | the reverse TERMINATE sweep, then everything cleared |
| `CflEngine.Engine.NodeSynthTerminate` | cfl_avr/runtime/cfl_engine.c:244-248 | TERMINATE gated by the initialized bit |
| `CflEngine.Engine.Guard` | cfl_avr/runtime/cfl_engine.c:256-260 | control of the current chain, or of none, panics |
| `CflEngine.Engine.Control` | cfl_avr/runtime/cfl_engine.c:293-316 | enable, disable, reset or send, guarded |
| `CflEngine.Engine.SendEvent` | cfl_avr/runtime/cfl_engine.c:332-346 | appends, or panics when 16 events wait |
| `CflEngine.Engine.QueuePop` | cfl_avr/runtime/cfl_engine.c:352-362 | first in, first out |
| `CflEngine.Engine.NodeHandleInit` | cfl_avr/runtime/cfl_engine.c:101-238 | INIT by node kind |
| `CflEngine.Engine.NodeHandle` | cfl_avr/runtime/cfl_engine.c:101-238 | an event by node kind |
| `CflEngine.Engine.DispatchNode` | cfl_avr/runtime/cfl_engine.c:401-440 | one turn of the dispatch loop |
| `CflEngine.Engine.DispatchChain` | cfl_avr/runtime/cfl_engine.c:394-442 | the walk over a chain |
| `CflEngine.Engine.PumpTurn` | cfl_avr/runtime/cfl_engine.c:447-459 | one event to all enabled chains |
| `CflEngine.Engine.Pump` | cfl_avr/runtime/cfl_engine.c:447-459 | the pump's loop for any module, for a bounded number of events |
| `SeStackModel.RotatedAt` | s_engine/runtime/s_engine_stack.c:543-586 | cell i of a segment rotated by n is cell (i - n) mod length of the segment |
| `SeStackModel.RotatePlus` | s_engine/runtime/s_engine_stack.c:543-586 | rotating by m, then by n, is rotating by m + n |
| `SeStackModel.RotateBack` | s_engine/runtime/s_engine_stack.c:543-586 | rotating by n, then by -n, changes nothing |
| `SeStackModel.RotatedPermutes` | s_engine/runtime/s_engine_stack.c:543-586 | a rotation loses and doubles no cell |
| `SeStackModel.InsertIsRotate` | s_engine/runtime/s_engine_stack.c:450-474 | insert is a rotation by one |
| `SeStackModel.InsertUndoesRemove` | s_engine/runtime/s_engine_stack.c:450-498 | a removed cell pushed and inserted again restores the stack |
| `SeStackModel.CallingConvention` | s_engine/runtime/s_engine_builtins_quads.h:593-632 | whatever a body does, nested calls included, returning leaves every outer frame and every cell below the params as they were and puts the listed variables, at most 16, in the place of the params; their values depend only on the params and the body's own writes |
| `SeStackModel.ResultsListed` | s_engine/runtime/s_engine_builtins_quads.h:608-632 | what the caller finds are the variables the list names, in its order, up to 16 of them and as many as there is room for |
| `SeStackModel.NamedInOrder` | s_engine/runtime/s_engine_builtins_quads.h:608-621 | a list of which every token names a variable gives those variables in order |
| `SeStackModel.NamedSkips` | s_engine/runtime/s_engine_builtins_quads.h:608-621 | a token that names none is as if it were not there |
| `SeStackModel.ReadsOwnWrites` | s_engine/runtime/s_engine_stack.c:658-671 | what a body reads of its own variables is what it wrote last, or what the call started with, nested calls or not |
| `SeStackModel.InitOpensIff` | s_engine/runtime/s_engine_builtins_quads.h:695-722 | INIT opens a frame if and only if the count on top is the number of params and the frame fits; otherwise the node asks to be terminated and no frame is opened |
| `SeStackModel.BodyKeeps` | s_engine/runtime/s_engine_stack.c:616-671 | throughout a body the call's variables are exactly what its own writes made of them |
| `SeStackModel.ReturnKeeps` | s_engine/runtime/s_engine_builtins_quads.h:593-632 | returning restores the caller's frames and the cells below the params |
| `SeStackModel.ParamsMustBeScratch` | s_engine/runtime/s_engine_stack.c:616-645 | the code checks a nested call's params against the stack height only; its writes stay off its caller's variables if and only if the params fit in the caller's scratch cells |
| `SeStackModel.CallNodeLifecycle` | s_engine/runtime/s_engine_builtins_quads.h:658-723 | within one tick: INIT with the count on top, any body, TERMINATE once or more: one frame pushed, one popped, count consumed, results in place of the params |
| `SeStackModel.CallAcrossTicks` | s_engine/runtime/s_engine_node.c:137-140 | every tick starts with an empty stack, so a call whose body goes on in a later tick has lost its variables, and its TERMINATE does nothing if and only if no other call is open; otherwise it closes that other call |
| `Arith.NegRem` | s_engine/runtime/s_engine_stack.c:562-563 | C's truncated remainder, corrected by the length, is the mathematical one |
| `SeStack.ParamStack.Push` | s_engine/runtime/s_engine_stack.c:124-141 | one cell on top, or refused when full |
| `SeStack.ParamStack.Rotate` | s_engine/runtime/s_engine_stack.c:543-586 | the shorter of the two in-place directions yields the rotated segment; nothing else changes |
| `SeStack.ParamStack.RightTurns` | s_engine/runtime/s_engine_stack.c:566-573 | k right turns rotate by k |
| `SeStack.ParamStack.LeftTurns` | s_engine/runtime/s_engine_stack.c:574-583 | k left turns rotate by -k |
| `SeStack.ParamStack.Insert` | s_engine/runtime/s_engine_stack.c:450-474 | the top cell moves down to the index |
| `SeStack.ParamStack.Remove` | s_engine/runtime/s_engine_stack.c:476-498 | the cells above the index move down |
| `SeStack.ParamStack.PushFrame` | s_engine/runtime/s_engine_stack.c:616-645 | a frame over the top params, its locals zeroed |
| `SeStack.ParamStack.PopFrame` | s_engine/runtime/s_engine_stack.c:647-651 | back to the frame's base |
| `SeStack.ParamStack.ResetStack` | s_engine/runtime/s_engine_stack.c:82-87 | what is on the stack and every open frame is given up |
| `SeStack.ParamStack.GetLocal` | s_engine/runtime/s_engine_stack.c:658-663 | a param or local of the current frame |
| `SeStack.ParamStack.SetLocal` | s_engine/runtime/s_engine_stack.c:665-671 | writes it |
| `SeStack.ParamStack.ReadReturns` | s_engine/runtime/s_engine_builtins_quads.h:608-621 | the first 16 listed locals that exist, in order |
| `SeStack.ParamStack.CopyReturnVarsAndPop` | s_engine/runtime/s_engine_builtins_quads.h:593-632 | reads the listed locals, pops the frame, pushes them |
| `SeStack.ParamStack.FrameInstance` | s_engine/runtime/s_engine_builtins_quads.h:658-723 | INIT, tick and TERMINATE of the call node |
| `SeTree.ChildCount` | s_engine/runtime/s_engine_node.c:400-420 | the number of parameters of the tree the tokens encode |
| `SeTree.ChildIndex` | s_engine/runtime/s_engine_node.c:422-446 | the offset of parameter k, or 0xFFFF exactly when there is none |
| `SeTree.ResetAllRecursive` | s_engine/runtime/s_engine_node.c:218-248 | exactly the node states of callables nested through calls become active and clear, EVER_INIT kept |
| `SeTree.ResetAt` | s_engine/runtime/s_engine_node.c:292-322 | the same for the callable at one offset; any other token is left alone |
| `SeTree.RearmAt` | s_engine/runtime/s_engine_node.c:229-236 | one node state rearmed |
| `SeTree.OffsetIsLength` | s_engine/runtime/s_engine_node.c:422-446 | the offset of parameter k is the length of the encoding of the earlier ones |
| `SeTree.WalkSteps` | s_engine/runtime/s_engine_node.c:23-35 | a skip lands on the next parameter, and tokens remain exactly while parameters do |
| `SeTree.TokenTells` | s_engine/runtime/s_engine_module.h:229-237 | an OPEN_CALL token starts a call whose parameters lie where s_expr_call_args looks, and no other token does |
| `SeTree.EncodeInjective` | s_engine/runtime/s_engine_types.h:270-330 | the tokens determine the tree |
| `SeNodes.SequenceInOrder` | s_engine/runtime/s_engine_builtins_flow_control.h:368-488 | after any number of ticks the calls made are one finished chapter per child before the stored index, in order, then that of the current child; later children are untouched; DISABLE is returned exactly when all have had their turn |
| `SeNodes.TickStory` | s_engine/runtime/s_engine_builtins_flow_control.h:406-488 | one tick takes such a story to such a story |
| `SeNodes.SequenceAnswers` | s_engine/runtime/s_engine_builtins_flow_control.h:446-487 | what a tick returns while the sequence runs is decided by the tick of the MAIN child at the stored index, the last call it makes: a pipeline code becomes PIPELINE_CONTINUE, FUNCTION_HALT becomes PIPELINE_HALT, any other code is passed on |
| `SeNodes.OneChildLive` | s_engine/runtime/s_engine_builtins_flow_control.h:368-488 | at most one MAIN child is initialized, the one at the stored index |
| `SeNodes.TerminateEndsAll` | s_engine/runtime/s_engine_builtins_flow_control.h:385-393 | TERMINATE leaves no child initialized, and a second one does nothing |
| `SeNodes.ResetIsFresh` | s_engine/runtime/s_engine_node.c:218-248 | a recursive reset of the children makes the sequence fresh again |
| `SeNodes.CanFinishIff` | s_engine/runtime/s_engine_builtins_flow_control.h:379-488 | for some behaviour of its children a tick of a sequence returns DISABLE if and only if it has at most 255 parameters |
| `SeNodes.NeverFinishes` | s_engine/runtime/s_engine_builtins_flow_control.h:406-488 | with more, no tick in any state returns DISABLE, however long its loop runs |
| `SeNodes.TickReturnsStep` | s_engine/runtime/s_engine_builtins_flow_control.h:406-488 | with at most 255, every tick returns, and returns what the story of the sequence is told about |
| `SeNodes.MainTurn` | s_engine/runtime/s_engine_eval.c:226-252 | an invocation of an active MAIN is INIT if it is the first, then the tick, then TERMINATE exactly on DISABLE |
| `SeNodes.MainEnds` | s_engine/runtime/s_engine_node.c:480-523 | a completed MAIN is told TERMINATE twice after DISABLE, once after TERMINATE or RESET |
| `SeNodes.QuickTurn` | s_engine/runtime/s_engine_eval.c:45-103 | one-shots and predicates have their turn in one call |
| `SeNodes.AllTerminated` | s_engine/runtime/s_engine_node.c:525-581 | TERMINATE goes to exactly the initialized MAIN children, last first, once each; then every callable is active and clear |
| `SeMachine.BranchesExclude` | s_engine/runtime/s_engine_builtins_dispatch.h:112-259 | from an INIT with no branch initialized, after any field values and answers, only the MAIN branch in the user word can be initialized, the calls satisfy the monitor, and after TERMINATE none is initialized |
| `SeMachine.TerminatedBetween` | s_engine/runtime/s_engine_builtins_dispatch.h:207-218 | between the INITs of two branches the first one gets TERMINATE |
| `SeMachine.ScanPicks` | s_engine/runtime/s_engine_builtins_dispatch.h:159-197 | the scan picks the first pair whose key is the value, else the last default pair, else nothing |
| `SeMachine.TickRests` | s_engine/runtime/s_engine_builtins_dispatch.h:159-259 | one tick keeps the discipline |
| `SeMachine.StopRests` | s_engine/runtime/s_engine_builtins_dispatch.h:128-134 | TERMINATE keeps it and leaves no branch live |
| `SeMachine.SwitchStage` | s_engine/runtime/s_engine_builtins_dispatch.h:207-218 | before the entered branch is invoked the left one is terminated |
| `SeMachine.LeaveStage` | s_engine/runtime/s_engine_builtins_shared_helpers.h:1-64 | terminating the branch that may be live leaves none |
| `SeBranch.EveryTickRuns` | s_engine/runtime/s_engine_builtins_dispatch.h:152-259 | over whole runs of se_state_machine, every tick whose field value has a MAIN branch ticks that branch exactly once; INIT comes first if and only if it was left, stopped or completed since its last INIT or never had one; the branch that was live, if another, is terminated before; both branches of a change, and a completed one, are left as new with everything nested in them |
| `SeBranch.EveryDispatchRuns` | s_engine/runtime/s_engine_builtins_dispatch.h:306-387 | the same of se_field_dispatch, which returns what the branch answered, or CONTINUE and no record if that completed it |
| `SeBranch.TickRuns` | s_engine/runtime/s_engine_builtins_dispatch.h:210-259 | one tick, with what it returns: the branch's answer, FUNCTION_HALT as PIPELINE_HALT, CONTINUE on completion and SKIP_CONTINUE |
| `SeBranch.TickResets` | s_engine/runtime/s_engine_builtins_dispatch.h:207-246 | what a tick rearms, nested callables included, and what it records |
| `SeBranch.EnteredFires` | s_engine/runtime/s_engine_builtins_dispatch.h:207-226 | a one-shot or a predicate entered by a branch change is called once, whether or not it fired before |
| `SeField.DispatchIsMachine` | s_engine/runtime/s_engine_builtins_dispatch.h:266-388 | se_field_dispatch calls its branches exactly as se_state_machine would, on every run from the same world and field values, and leaves every node but its own in the same state |
| `SeField.AnswersCorrespond` | s_engine/runtime/s_engine_builtins_dispatch.h:232-258 | the two return the same code except that the dispatch passes FUNCTION_HALT and SKIP_CONTINUE on |
| `SeField.DispatchExcludes` | s_engine/runtime/s_engine_builtins_dispatch.h:266-388 | branch exclusivity holds of the dispatch with its own record, which it clears on completion |
| `SeField.TickAlike` | s_engine/runtime/s_engine_builtins_dispatch.h:362-387 | one tick keeps the two alike: equal, or differing only in the record of a completed branch |
| `SeField.SwitchMerges` | s_engine/runtime/s_engine_builtins_dispatch.h:362-371 | entering any branch makes the two worlds equal again |
| `SeFork.JoinWaitsForAll` | s_engine/runtime/s_engine_builtins_flow_control.h:875-1011 | after any number of ticks each MAIN child's calls make a life (INIT, ticks, completion, TERMINATEs, again after RESET), each one-shot fired at most once, and a tick returns DISABLE if and only if afterwards every MAIN child is gone |
| `SeFork.OneTickEach` | s_engine/runtime/s_engine_builtins_flow_control.h:904-942 | in every tick each due child before the stop of the walk gets exactly one tick and the others none: active MAINs, one-shots that have not fired, and predicates that have not marked themselves; so a predicate that never does is asked in every tick, one that always does only once |
| `SeFork.WalkStops` | s_engine/runtime/s_engine_builtins_flow_control.h:943-984 | the walk over the children ends early if and only if a MAIN answers SKIP_CONTINUE or a code below the pipeline codes other than FUNCTION_HALT, and with that answer |
| `SeFork.MainTurnLife` | s_engine/runtime/s_engine_builtins_flow_control.h:938-978 | the turn of an active MAIN takes its life one step on and leaves the lives of the others alone |
| `SeFork.ForkAnswers` | s_engine/runtime/s_engine_builtins_flow_control.h:943-1011 | every tick returns the code for the caller if its last call answered one, else DISABLE if every MAIN child is gone, else FUNCTION_HALT; nothing is called after such a code or a SKIP_CONTINUE |
| `SeWhile.LoopInRounds` | s_engine/runtime/s_engine_builtins_flow_control.h:1159-1259 | after any number of ticks the calls are whole rounds (predicate true, body from INIT to completion and TERMINATE) and refusals, and only the last round may be open; a tick returns DISABLE if and only if it asked the predicate, which said no |
| `SeWhile.LoopStuckIff` | s_engine/runtime/s_engine_node.c:615-641 | a tick of the loop calls nothing if and only if the body once answered SE_DISABLE, which s_expr_child_invoke turns into SE_CONTINUE after terminating the body |
| `SeWhile.StuckForever` | s_engine/runtime/s_engine_node.c:615-641 | from then on nothing changes and every tick returns FUNCTION_HALT |
| `SeWhile.BodyTurn` | s_engine/runtime/s_engine_builtins_flow_control.h:1219-1252 | one tick of the body continues its calls, and its answer closes the round, stalls it or leaves it open |
| `SeWhile.LoopAnswers` | s_engine/runtime/s_engine_builtins_flow_control.h:1195-1259 | what every tick returns: FUNCTION_HALT if it calls nothing, DISABLE on a refusal, PIPELINE_HALT when the body completed, which leaves it as new; other pipeline codes become FUNCTION_HALT, SE_DISABLE becomes SE_CONTINUE, any other code is passed on |
| `SeInterp.Interp.Enter` | s_engine/runtime/s_engine_eval.c:196-256 | a child function runs with its node current, which is restored |
| `SeInterp.Interp.DispatchMain` | s_engine/runtime/s_engine_eval.c:160-259 | lazy INIT, the event, TERMINATE and deactivation on DISABLE, in place; the current node is restored |
| `SeInterp.Interp.DispatchOneshot` | s_engine/runtime/s_engine_eval.c:45-103 | fires once until a reset, or once for ever if the node survives resets |
| `SeInterp.Interp.InvokeAny` | s_engine/runtime/s_engine_eval.c:515-561 | the kind of the function token behind OPEN_CALL decides; no node state but the callable's changes |
| `SeInterp.Interp.TerminateAt` | s_engine/runtime/s_engine_node.c:67-113 | TERMINATE and a cleared node state, for an initialized MAIN only |
| `SeInterp.Interp.ChildrenTerminateAll` | s_engine/runtime/s_engine_node.c:525-581 | the flat walk from the last child to the first does what the tree form says; with more than 32768 children its signed index is negative from the start and it does nothing |
| `SeInterp.Interp.Sequence` | s_engine/runtime/s_engine_builtins_flow_control.h:368-488 | the three events of a sequence on the flat form equal the tree form, for any number of children |
| `SeInterp.Interp.SequenceTick` | s_engine/runtime/s_engine_builtins_flow_control.h:406-488 | its byte-indexed loop too, for a bounded number of turns |
| `SeInterp.Interp.FindAction` | s_engine/runtime/s_engine_builtins_dispatch.h:159-197 | the scan over physical indexes finds the offset of the chosen action |
| `SeInterp.Interp.SwitchTo` | s_engine/runtime/s_engine_builtins_dispatch.h:207-218 | the branch change on the flat form |
| `SeInterp.Interp.MachineTick` | s_engine/runtime/s_engine_builtins_dispatch.h:152-259 | a tick on the flat form equals the tree form |
| `SeInterp.Interp.MachineStop` | s_engine/runtime/s_engine_builtins_dispatch.h:128-134 | TERMINATE on the flat form equals the tree form, for se_field_dispatch too |
| `SeInterp.Interp.FieldTick` | s_engine/runtime/s_engine_builtins_dispatch.h:306-387 | a tick of se_field_dispatch on the flat form equals the tree form |
| `SeInterp.Interp.WhileTick` | s_engine/runtime/s_engine_builtins_flow_control.h:1192-1259 | a tick of se_while on the flat form equals the tree form |
| `SeInterp.Interp.ChildInvoke` | s_engine/runtime/s_engine_node.c:615-641 | SE_DISABLE of a child terminates it and becomes SE_CONTINUE |
| `SeInterp.Interp.ChildTerminate` | s_engine/runtime/s_engine_node.c:463-503 | an initialized MAIN child is told and cleared, any other is left alone |
| `SeInterp.Interp.ForkTurn` | s_engine/runtime/s_engine_builtins_flow_control.h:905-982 | one child of the walk on the flat form |
| `SeInterp.Interp.ForkTick` | s_engine/runtime/s_engine_builtins_flow_control.h:898-1011 | the walk with its early ends, then the count of active MAINs, on the flat form |
| `SeInterp.Interp.AnyActive` | s_engine/runtime/s_engine_builtins_flow_control.h:986-1010 | whether a MAIN child is active |
| `CtlProvision.DoneMeansProvisioned` | linux/bus_controller/controller.c:165-229 | in every execution that never restarts the chain with a reply outstanding, PROV_DONE is reached if and only if CLEAR, one REGISTER per slave in order, SET_POLL exactly if configured, and LIST were sent, each answered with status 0 before the next, and the count read back is at least the roster's |
| `CtlProvision.RestartMisleadsIff` | linux/bus_controller/controller.c:201-206 | a resync or re-attach can lead to a PROV_DONE without that if and only if a reply was outstanding |
| `CtlProvision.FailMeansRefused` | linux/bus_controller/controller.c:201-229 | in such executions PROV_FAIL means that a command was answered with a status other than 0, that the read-back counted fewer slaves than the roster has, or that the node polled is no bus controller; and each of them means PROV_FAIL |
| `CtlProvision.ChainTakes` | linux/bus_controller/controller.c:165-229 | a chain takes exactly one good reply per command of its script: after n of them command n is on its way, after all of them it is over, with PROV_DONE exactly when the count suffices |
| `CtlProvision.OutcomeLasts` | linux/bus_controller/controller.c:429-433 | an outcome lasts until a restart |
| `CtlProvision.ReadyPollDecides` | linux/bus_controller/controller.c:429-433 | a poll that is ready sends the clear command on the bus controller, and fails elsewhere; one that is not does nothing |
| `CtlProvision.NothingAfterDetach` | linux/bus_controller/controller.c:473-478 | without a roster nothing is ever provisioned |
| `CtlProvision.StepKeeps` | linux/bus_controller/controller.c:201-229 | every step that does not restart early keeps the chain in step with its script |
| `CtlProvision.Provisioner.OnProvReply` | linux/bus_controller/controller.c:201-229 | a bad status ends in PROV_FAIL; a good one sends the next command of the script, or compares the count read back with the roster |
| `CtlProvision.Provisioner.ProvAfterSlaves` | linux/bus_controller/controller.c:189-192 | SET_POLL if configured, else LIST |
| `CtlProvision.Provisioner.PollProvision` | linux/bus_controller/controller.c:429-433 | the start of a chain, or PROV_FAIL on another role |
| `CtlProvision.Provisioner.ResetSync` | linux/bus_controller/controller.c:146-155 | back to PROV_IDLE |
| `CtlProvision.Provisioner.AttachRoster` | linux/bus_controller/controller.c:473-478 | a new roster, back to PROV_IDLE |
| `CtlProvision.Provisioner.DetachRoster` | linux/bus_controller/controller.c:473-478 | a null roster clears the stored one, back to PROV_IDLE |
| `CtlReconcile.PushesExactlyWhen` | linux/bus_controller/controller.c:383-409 | over a positive monotone clock, a poll asks for a re-push if and only if index and message have disagreed at every poll for at least 1500 ms and no re-push was asked for in the last 2000 ms |
| `CtlReconcile.PushesApart` | linux/bus_controller/controller.c:383-409 | re-pushes to one slave are at least 2000 ms apart |
| `CtlReconcile.PassAsksExactly` | linux/bus_controller/controller.c:383-409 | a pass over the roster asks exactly the slaves of which that is true, each once and in order, whatever the others did |
| `CtlReconcile.TimersAlone` | linux/bus_controller/controller.c:386-407 | a slave's timers depend on its own polls alone |
| `CtlReconcile.GapTimer` | linux/bus_controller/controller.c:400-401 | the gap timer is the clock of the poll that opened the gap |
| `CtlReconcile.PushTimer` | linux/bus_controller/controller.c:403-406 | the cooldown timer is the clock of the last re-push |
| `CtlReconcile.Reconciler.ReconcileOne` | linux/bus_controller/controller.c:386-407 | one slave's timers and the decision to ask, in place; the other slaves' timers are unchanged |
| `CtlReconcile.Reconciler.ReconcileInterlocks` | linux/bus_controller/controller.c:383-409 | every roster slave is treated by itself, those asked are listed in order, and the total grows by their number |
| `CtlEvents.PushAppends` | linux/bus_controller/controller.c:98-111 | the ring is a bounded FIFO: an event that finds it full is lost, the others keep their order and payloads; a length without bytes shows what the slot's buffer held |
| `CtlEvents.DropsFirst` | linux/bus_controller/controller.c:113-119 | draining takes the oldest event |
| `CtlEvents.DrainedPayloadLasts` | linux/bus_controller/controller.c:95-119 | byte k of a drained payload lasts until a push fills the ring again, and is overwritten by it if and only if that push brings more than k bytes, cut to 64; nothing else writes it |
| `CtlEvents.PayloadIntactIff` | linux/bus_controller/controller.c:95-119 | so the whole payload is intact if and only if that push writes only what was there |
| `CtlEvents.EventQueue.EvqPush` | linux/bus_controller/controller.c:98-111 | the event at the tail and its payload, cut to 64 bytes, in the slot's buffer; a null pointer leaves the buffer alone |
| `CtlEvents.EventQueue.Copy` | linux/bus_controller/controller.c:107 | the copy writes the first bytes of one slot's buffer only |
| `CtlEvents.EventQueue.Drain` | linux/bus_controller/controller.c:113-119 | the oldest event with its payload, and the slot whose buffer its pointer refers to |

## Left out

- Sends that fire callbacks: the link is modelled by its contract (`linux/bus_controller/link_endpoint.h:48-53`); `usb_link.c` can report LINK_DOWN from inside a send, which the model does not cover.
- Frame encoding, CRC, SLIP, termios and file descriptors: a frame is its request id and its arguments' length; the bytes of arguments and results play no part in the properties.
- The sync ladder (REGISTER, MANIFEST, OPERATIONAL), its throttles and identity parsing: provisioning is told whether the controller is ready and which role it has.
- The cached interlock messages of the tracker: reconciliation is given what each poll sees of them.
- Roster parsing, the FFI facade and the `*_main.c` programs: no state of their own.
- BusInvariant.ResetFromInv: for callbacks that spare the slave being reset, because commands are lost otherwise; what the others do is the subject of `BusReset`.
- BusTheorems.NoCrossTalk: says which command a request completes only while no other request is pending with the same id under the same slot's name; two such requests cannot be told apart (`BusWrap.StaleReplyAtWrap`).
- BusTiming.BoundedLifetime: G bounds the gap between polls while a command is in flight, not between clock reads of the demux. The tracker's clock is 0 until its first poll, so a command submitted before that poll is outside the bound unless the first poll comes within G of 0.
- BusReset.OneSubmissionLosesIff: foretells the loss for a single submission; with several the loss is decided by `ResetLosesIff` from the frames that went out.
- BusStack.CmdTracker.Submit: the handle returned is the count on 32 bits; the model keeps the full count, so its wrap after 2^32 commands cannot confuse two commands in the proofs.
- Callback pointers: an entry's owner tag stands for the callback and its user pointer, so the same tag means the same callback.
- Interrupts: the event queue of the chain engine is atomic in push and pop, as the code makes it; user functions that call the pump, reserved event ids in the queue and node kinds or return codes outside their ranges (which panic) are not modelled.
- CflRun.LifecycleDiscipline: says nothing once a chain with an initialized node was enabled, because that re-arms nodes without TERMINATE (`cfl_avr/runtime/cfl_engine.c:262-273`) and breaks it (`CflTrace.DisciplineIff`), nor after a panic.
- User functions that write another node's scratch word, and TERMINATE callbacks that control chains: excluded by `WellFormed`.
- SeNodes.SequenceInOrder: children are leaves whose functions touch their own node only; a child that is itself a composite is an arbitrary such function here, and its descendants' states are not followed.
- SeMachine.BranchesExclude: the same holds for branches.
- SeField.DispatchIsMachine: compares the calls and the other nodes' states; when no case matches, which is an EXCEPTION in both, the two are not compared in what they return.
- SeFork.JoinWaitsForAll: the children are leaves in the same sense, and TERMINATE of the composite is `SeNodes.AllTerminated`.
- SeWhile.LoopInRounds: child 0 is a predicate and child 1 a MAIN, as the DSL builds it; for other kinds the code raises EXCEPTION or invokes a body that never completes.
- `se_fork`, `se_chain_flow`, `se_if_then_else`, `se_cond`, `se_trigger_on_change`, `se_function_interface` and `se_event_dispatch`: not modelled.
- Pointer slots (`in_pointer_call`, `pointer_base`), blackboard fields, floats, quads, dictionaries and the loader: no part of the modelled state. A field's value is a parameter of a tick.
- EXCEPTION: does not return in the program; the methods return false, or do nothing, without a further change.
- `s_expr_stack_poke`, `settop`, `popn`, `copy`, `replace`, `swap` and the typed accessors: they would add only easy members, and `poke` writes outside any frame discipline.
- Allocation of a stack, which leaves `frame_count` to the allocator (`s_engine/runtime/s_engine_stack.c:14-60`): `SeStack.ParamStack` starts from zeroed memory.
