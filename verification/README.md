# Verification of Mine Teleop

Mine Teleop lets a driver steer a mine truck over a network. This project
models the parts of it that are state machines, protocols, formats or
crash-ordered file work, and proves what they promise over every input, every
run and every failure that the environment can cause. `dafny verify
dfyconfig.toml` checks all of it.

The code that updates objects is modelled by classes that update the same
fields. Each method is proved to take the step that a function of the state
describes, and, where calls may fail, to succeed exactly when they work; the
theorems are about those functions and about runs built from them. Where the code calls something that may fail, the model lets it: an
adapter call, a file step, a log append and an HTTP exchange each answer
whatever an arbitrary function of the call number says, so a theorem for every
such function is a theorem for every behaviour.

## Modules

Vehicle safety (`cpp/src/core.cpp`, and the sender in `cpp/src/server.cpp`):

- `ControlTypes`: commands, profiles and their field checks.
- `IntentStore`: the driver-side intent store with its lease, fresh-neutral
  interlock and sticky ESTOP.
- `Receiver`: identity, order and age of a command on the vehicle.
- `Safety`: the safety state machine and the deceleration profile.
- `VehicleService`, `VehicleControl`: the control service as functions of the
  state, and as the object that calls the adapter.
- `VehicleRuns`, `VehicleTimeout`, `VehicleDecision`, `VehicleSteering`,
  `VehicleExamples`: what holds over whole runs, what a timeout bars, exactly when
  a command moves the vehicle, what bounds its steering, and runs that show what
  is left open.
- `EndToEnd`: page, sender, network and vehicle together.

Signaling (`cpp/src/server.cpp`):

- `Mailboxes`, `MailRuns`: queues, control mailboxes, cursors and retries.
- `Delivery`: repeated pushes over breaking connections, made exactly-once by
  the console.
- `Cloud`, `SignalingService`: presence, tokens, sessions, approvals and mail
  as functions of the state, and as the object with its loops.
- `CloudRuns`, `CloudApprovals`, `CloudGrants`, `CloudTokens`: who may hold a
  vehicle, what an approval is worth, exactly when a request is granted, and what
  becomes of a token.

Diagnostics (`cpp/src/session_logs.cpp`):

- `ChunkUpload`, `UploadWorker`: the resumable upload at both ends.
- `Bytes`, `Crc`, `Zip`, `ZipWriter`: the archive, its checksum and a reader.

Smaller parts: `RotatingLog`, `LineSplitter` and `VendorMarkers`
(`cpp/apps/mine_teleop_launcher.cpp`), `ClockSync` (`cpp/src/http.cpp`) and
`Uploader` (`cpp/src/upload.cpp`).

## What the proofs found

- The uncertainty that clock synchronisation states is a maximum where a sum
  is needed. The error is at most twice the stated value
  (`ClockSync.SynchronizedBound`), three honest samples reach that
  (`ClockSync.TwiceTheUncertaintyIsAttained`), and the stated value holds
  exactly when it covers both bounds that the samples put on the offset
  (`ClockSync.StatedUncertaintyExactly`).
- A session profile may exceed the brake limit of the vehicle by the comparison
  tolerance, and the brake conversion then throws on every command. A command
  moves the vehicle only if the limit is met without tolerance
  (`VehicleDecision.MovesExactlyWhenGranted`,
  `VehicleDecision.ToleratedBrakeLimitLocksOut`), and there is a run in which it
  is not (`VehicleExamples.ToleratedBrakeLimitIsReached`).
- The byte counter of an upload does not see bytes that reached a file in a
  request that ended in an error. It is right if and only if that never happened
  (`ChunkUpload.CountedIsStored`, with a run in `ChunkUpload.CounterMayLag`).
- A chunk may be accepted although its bytes are lost when the stream is closed
  (`ChunkUpload.AcceptedIsThere`); the final report notices
  (`ChunkUpload.AcceptedFinishMeansEqual`).
- Normalising a deceleration profile may raise the last stage by twice the
  tolerance (`Safety.TwiceTheToleranceIsReached`). Once is enough if and only if
  that stage asks for full brake within the tolerance
  (`Safety.RaisedOnceExactly`).
- The uploader of recordings always takes the first segment that is not done, so
  one that cannot be uploaded holds up all behind it (`Uploader.FirstBlocksTheRest`,
  with a disk in `Uploader.CorruptFileBlocks`). The backlog drains if and only if
  there is none (`Uploader.DrainsExactly`).
- When a profile lowers the speed while driving, the last command is applied
  again under the new speed limit, but its steering is not limited again
  (cpp/src/core.cpp:3125-3139). It is within the steering limit of the active
  profile if and only if the remembered command already was
  (`VehicleSteering.ReappliedSteersWithin`); over whole runs it exceeds that limit
  only if the limit was lowered since (`VehicleSteering.ExceedsOnlyAfterLowering`),
  and there is a run in which it does
  (`VehicleExamples.ReapplicationMayExceedSteeringLimit`).
- A closed session keeps its control token if and only if its creation could not
  be recorded (`CloudTokens.TokenOutlivesExactly`, with a run in
  `CloudTokens.TokenMayOutliveSession`; cpp/src/server.cpp:3783-3785). Statements
  about tokens are therefore about open sessions.

## Model

| member | source | states |
|---|---|---|
| `ControlTypes.VehicleBrakeRequest` | cpp/src/core.cpp:85-105 | A session-relative brake request converts exactly when it and both limits are in range and the session limit is not above the vehicle limit; the result never exceeds the request |
| `IntentStore.NativeControlIntentStore.UpdateIntent` | cpp/src/core.cpp:1097-1139 | The whole new state and answer of an update: latch, replay and conflict by number, fresh-neutral interlock; a thrown argument error leaves the store alone |
| `IntentStore.NativeControlIntentStore.SampleIntent` | cpp/src/core.cpp:1141-1158 | The whole new state and sample; the lease takes effect only when a sample observes it |
| `IntentStore.NativeControlIntentStore.Invalidate` | cpp/src/core.cpp:1160-1163 | Withholds input until a fresh neutral one and changes nothing else |
| `IntentStore.NativeControlIntentStore.Reset` | cpp/src/core.cpp:1165-1171 | Returns the store to its initial state |
| `IntentStore.ReadyMeansArmed` | cpp/src/core.cpp:1117-1132 | In every run, input may pass only after an accepted neutral input that no reset, invalidation, page change or observed expiry has followed |
| `IntentStore.ArmedMeansReady` | cpp/src/core.cpp:1117-1132 | The converse: after such a neutral input, and until one of those four events, input passes |
| `IntentStore.ActuationExactly` | cpp/src/core.cpp:1141-1158 | In every run a sample asks an actuator to move if and only if the stored intent does, no ESTOP is latched, the intent is younger than the lease and the store is armed |
| `IntentStore.ActuationNeedsFreshArmedIntent` | cpp/src/core.cpp:1141-1158 | Such a sample carries the stored intent unchanged, and taking it observes no expiry |
| `IntentStore.LatchZeroesIntent` | cpp/src/core.cpp:1107-1112 | In every run the latch is set exactly when an ESTOP is stored, and then every actuator value is zero |
| `IntentStore.EstopSticksUntilReset` | cpp/src/core.cpp:1104-1158 | After an accepted ESTOP every sample up to the next reset is an ESTOP with every actuator released, whatever else happens |
| `Safety.LiftStages` | cpp/src/core.cpp:107-133 | The loop over the stages accepts exactly the profiles whose stages fit, and replaces each brake by the strongest one so far |
| `Safety.NormalizeDecelerationProfile` | cpp/src/core.cpp:107-143 | Succeeds on exactly the acceptable profiles and leaves a normalised one |
| `Safety.RaisedIsNormalised` | cpp/src/core.cpp:107-143 | Times stay strictly increasing, brakes become non-decreasing, within 0 and 1, and the last is exactly 1 |
| `Safety.RaisedWithinTolerance` | cpp/src/core.cpp:107-143 | Normalising keeps every time and raises a brake by at most the tolerance, the last one by at most twice the tolerance |
| `Safety.RaisedOnceExactly` | cpp/src/core.cpp:107-143 | Every brake is raised by at most the tolerance if and only if the last one asks for full brake within the tolerance |
| `Safety.TwiceTheToleranceIsReached` | cpp/src/core.cpp:107-143 | An accepted profile of two stages whose last brake is raised by exactly twice the tolerance |
| `Safety.BrakeIsAStage` | cpp/src/core.cpp:1674-1682 | For any profile at all the chosen brake is zero or that of a stage already reached |
| `Safety.BrakeNeverWeakens` | cpp/src/core.cpp:1674-1682 | A longer time in the timeout state never means a weaker brake |
| `Safety.SafetyStateMachine.MarkReady` | cpp/src/core.cpp:1591-1593 | INIT becomes STANDBY and no other state moves |
| `Safety.SafetyStateMachine.OnValidCommand` | cpp/src/core.cpp:1595-1607 | The whole new state; ESTOP latches, FAULT and ESTOP are kept by ordinary commands |
| `Safety.SafetyStateMachine.Tick` | cpp/src/core.cpp:1609-1621 | The whole new state; the time of entering the timeout is kept while it lasts |
| `Safety.SafetyStateMachine.CurrentOutput` | cpp/src/core.cpp:1623-1648 | The output of each state |
| `Safety.SafetyStateMachine.BrakeForTimeout` | cpp/src/core.cpp:1674-1682 | The scan over the stages finds the brake that the profile gives for the elapsed time |
| `Safety.SafetyStateMachine.ResetEstop` | cpp/src/core.cpp:1650-1657 | Resets if and only if the state is ESTOP, the reset is confirmed and somebody authorised it |
| `Safety.SafetyStateMachine.ResetToStandby` | cpp/src/core.cpp:1659-1663 | Resets if and only if nothing is latched |
| `Safety.SafetyStateMachine.EnterStandby` | cpp/src/core.cpp:1665-1670 | Standby forgets command and clocks |
| `Safety.SafetyStateMachine.MarkFault` | cpp/src/core.cpp:1672 | The state becomes FAULT and both clocks are kept |
| `Receiver.ControlReceiver.Accept` | cpp/src/core.cpp:1515-1576 | Every check in the order of the source, with the whole new cursor: a gap moves the clock but not the number, any other refusal moves nothing |
| `Receiver.AcceptedNumbersIncrease` | cpp/src/core.cpp:1530-1576 | Whatever is repeated, reordered or delayed, the numbers of accepted commands strictly increase |
| `Receiver.GapDropsOneCommandOnly` | cpp/src/core.cpp:1549-1556 | After a gap the next newer and timely command is accepted, so a gap never locks control out |
| `VehicleControl.VehicleControlService.Start` | cpp/src/core.cpp:2850-2861 | Takes exactly the specified step, for every adapter behaviour: open, clear the runtime profile, close again when that throws |
| `VehicleControl.VehicleControlService.ReceiveCommand` | cpp/src/core.cpp:3166-3303 | Takes exactly the specified step, for every adapter behaviour: admission, profile check, degraded check, limiting, forwarding |
| `VehicleControl.VehicleControlService.Admit` | cpp/src/core.cpp:3169-3196 | Takes exactly the specified step, for every adapter behaviour: an accepted ESTOP is latched and the profile revoked before anything can fail; other commands meet the watchdog first |
| `VehicleControl.VehicleControlService.Limit` | cpp/src/core.cpp:3207-3240 | The throttle and steering limits of vehicle and session, and which warnings they cause |
| `VehicleControl.VehicleControlService.Forward` | cpp/src/core.cpp:3241-3280 | Takes exactly the specified step, for every adapter behaviour: feedback poll, adapter stop, feedback readiness, in this order |
| `VehicleControl.VehicleControlService.FaultStop` | cpp/src/core.cpp:3254-3270 | The machine is faulted before the stop that may throw |
| `VehicleControl.VehicleControlService.StopAndClear` | cpp/src/core.cpp:3254-3279 | A stop and the revocation after it, or the exception of the stop alone |
| `VehicleControl.VehicleControlService.Actuate` | cpp/src/core.cpp:3281-3303 | Takes exactly the specified step, for every adapter behaviour: brake conversion, traction call, safety state, remembered command |
| `VehicleControl.VehicleControlService.LatchedStop` | cpp/src/core.cpp:3305-3327 | Takes exactly the specified step, for every adapter behaviour: the stop that a latched machine sends |
| `VehicleControl.VehicleControlService.ReceiveSessionProfile` | cpp/src/core.cpp:2883-2993 | Takes exactly the specified step, for every adapter behaviour: the replay, identity, order and age checks of a profile request |
| `VehicleControl.VehicleControlService.Replay` | cpp/src/core.cpp:2927-2965 | Takes exactly the specified step, for every adapter behaviour: the remembered answer for an identical request, a refusal for a different one with the same number |
| `VehicleControl.VehicleControlService.Answered` | cpp/src/core.cpp:2863-2881 | Identity, revision and effective profile of every answer |
| `VehicleControl.VehicleControlService.CacheAnswer` | cpp/src/core.cpp:2994-2998 | The answer is remembered with its request |
| `VehicleControl.VehicleControlService.ConsiderProfile` | cpp/src/core.cpp:2994-3114 | Takes exactly the specified step, for every adapter behaviour: the vehicle limits, and the parking and standby conditions on the change |
| `VehicleControl.VehicleControlService.ConfigureProfile` | cpp/src/core.cpp:3116-3163 | Takes exactly the specified step, for every adapter behaviour: configure, re-apply the last command under a lower limit, stop and clear on any failure |
| `VehicleControl.VehicleControlService.RequestVcuHandshake` | cpp/src/core.cpp:3330-3341 | Takes exactly the specified step, for every adapter behaviour: the handshake and the return to standby |
| `VehicleControl.VehicleControlService.DisconnectVcuHandshake` | cpp/src/core.cpp:3343-3351 | Takes exactly the specified step, for every adapter behaviour: the disconnection clears the profile |
| `VehicleControl.VehicleControlService.TickControl` | cpp/src/core.cpp:3353-3381 | Takes exactly the specified step, for every adapter behaviour: poll, observe the adapter, fault when feedback is required and blind, watchdog |
| `VehicleControl.VehicleControlService.EvaluateWatchdog` | cpp/src/core.cpp:3383-3421 | Takes exactly the specified step, for every adapter behaviour: the profile is revoked before the stop is sent |
| `VehicleControl.VehicleControlService.ResetEstop` | cpp/src/core.cpp:3423-3460 | Takes exactly the specified step, for every adapter behaviour: the adapter is asked first, and released before the machine |
| `VehicleControl.VehicleControlService.RefreshAdapterStop` | cpp/src/core.cpp:3500-3512 | Takes exactly the specified step, for every adapter behaviour: an adapter that stopped itself revokes the profile; one that cannot be observed does not |
| `VehicleControl.VehicleControlService.ClearSessionProfile` | cpp/src/core.cpp:3514-3528 | Takes exactly the specified step, for every adapter behaviour: profile, remembered command and remembered answer are revoked before the adapter hears of it |
| `VehicleControl.VehicleControlService.Ask` | cpp/src/core.cpp:3500-3528 | One adapter call is recorded and answered, and nothing else changes |
| `VehicleControl.VehicleControlService.Close` | cpp/src/core.cpp:3462-3470 | Takes exactly the specified step, for every adapter behaviour: stop, clear, close; a throw leaves the service started |
| `VehicleRuns.CommandTraction` | cpp/src/core.cpp:3166-3303 | A command either moves nothing, or the receiver, the profile, the safety state and the adapter all agreed and its limited form was the last call |
| `VehicleRuns.ProfileOutcome` | cpp/src/core.cpp:2883-3163 | A profile request is answered without touching the installed profile, or the adapter was configured and the profile is active, or the vehicle was stopped and none is |
| `VehicleRuns.ProfileKeepsMachine` | cpp/src/core.cpp:2883-3163 | A profile request never moves the safety state or the command cursor |
| `VehicleRuns.StepKeepsInv` | cpp/src/core.cpp:2850-3528 | Every operation keeps the agreement between service and adapter and only ever appends to the adapter calls |
| `VehicleRuns.InvHolds` | cpp/src/core.cpp:2850-3528 | That agreement holds after every run |
| `VehicleRuns.SetpointBound` | cpp/src/core.cpp:1429-1444 | A throttle within the session limit gives an adapter speed setpoint within the target speed of the profile |
| `VehicleRuns.EveryTractionIsJustified` | cpp/src/core.cpp:3116-3303 | In every run each traction call comes from a command that met every condition at that moment, or re-sends the last command under a lower limit just confirmed; its speed setpoint is within the profile concerned |
| `VehicleRuns.ProfilesAgreeWithAdapter` | cpp/src/core.cpp:2994-3163 | Revisions handed to the adapter strictly increase over a run; an active profile is the last one configured successfully and not cleared since; a remembered command implies an active profile |
| `VehicleRuns.ReplayNeverReconfigures` | cpp/src/core.cpp:2927-2965 | An identical repetition reaches no adapter call and leaves everything but the remembered answer alone |
| `VehicleRuns.EstopAlwaysLatches` | cpp/src/core.cpp:3169-3196 | An accepted ESTOP leaves the service in ESTOP without a profile even if every adapter call fails |
| `VehicleRuns.LatchStep` | cpp/src/core.cpp:1595-1672 | One step leaves ESTOP only by a released local reset, FAULT only to ESTOP, and enters ESTOP only by an accepted ESTOP |
| `VehicleRuns.EstopHoldsUntilReset` | cpp/src/core.cpp:3423-3460 | In every run ESTOP holds until a released local reset |
| `VehicleRuns.FaultHoldsUntilEstop` | cpp/src/core.cpp:3362-3368 | In every run FAULT holds until an accepted ESTOP |
| `VehicleDecision.ForwardedExactly` | cpp/src/core.cpp:3241-3303 | An admitted command moves the vehicle if and only if the adapter agrees and the brake request converts |
| `VehicleDecision.MovesExactlyWhenGranted` | cpp/src/core.cpp:3166-3303 | In every reachable state a command reaches the actuators if and only if the receiver, profile and safety state allow it, no stop call failed, the adapter agrees and the brake limit of the session is within that of the vehicle; the calls are then fully determined |
| `VehicleDecision.ToleratedBrakeLimitLocksOut` | cpp/src/core.cpp:3017-3024 | A brake limit that only the tolerance of the profile check lets through bars every command |
| `VehicleSteering.CommandSteersWithin` | cpp/src/core.cpp:3207-3240 | Every received command that reaches the actuators steers within the active profile |
| `VehicleSteering.ReappliedSteersWithin` | cpp/src/core.cpp:3125-3139 | A re-applied command steers within the new profile if and only if the remembered one already did |
| `VehicleSteering.RunKeepsSteering` | cpp/src/core.cpp:3116-3303 | In every run the remembered command was applied within the steering limit in force; if it exceeds the active limit, a lower one was configured since |
| `VehicleSteering.ExceedsOnlyAfterLowering` | cpp/src/core.cpp:3125-3139 | In every run a re-applied command exceeds the steering limit of its profile only if a lower limit was configured since that steering was applied within its own |
| `VehicleExamples.ReapplicationMayExceedSteeringLimit` | cpp/src/core.cpp:3125-3139 | A run, with valid limits and an agreeable adapter, in which a re-applied command exceeds the active steering limit |
| `VehicleExamples.ToleratedBrakeLimitIsReached` | cpp/src/core.cpp:3017-3024 | A run in which a profile above the brake limit by the tolerance is configured, and a command that everything else agrees to does not move the vehicle |
| `VehicleTimeout.TimeoutStep` | cpp/src/core.cpp:1609-1621 | Staying in the timeout state keeps both clocks; entering it means the time was late enough, and remembers it |
| `VehicleTimeout.BarredStep` | cpp/src/core.cpp:3330-3421 | No step other than a granted handshake or a released reset makes traction possible again |
| `VehicleTimeout.NoTractionAfterTimeout` | cpp/src/core.cpp:3383-3421 | With a clock that never runs backwards, no traction call follows the timeout until a handshake is granted or a latched ESTOP is reset |
| `VehicleTimeout.TimeoutBrakeNeverWeakens` | cpp/src/core.cpp:1623-1682 | While the timeout lasts the brake never weakens, traction and steering are zero, and from the last stage on the brake is full |
| `EndToEnd.NativeControlSender.SendSample` | cpp/src/server.cpp:4417-4735 | Sampling, numbering and stamping of one command, and every way in which it is not sent; a number is drawn even then, and a failure invalidates the store |
| `EndToEnd.NativeControlSender.NoteFailure` | cpp/src/server.cpp:4387-4403 | A failure withholds the input until a fresh neutral one, unless another session has begun |
| `EndToEnd.EverythingTraced` | cpp/src/server.cpp:4417-4500 | Traction in anything ever sent goes back to an accepted page input younger than the lease when it was stamped |
| `EndToEnd.NoStaleTraction` | cpp/src/core.cpp:1533-1539 | Traction applied on receiving a command at time T goes back to a page input accepted after T minus lease minus gap, in the same gear and with at least that throttle, whatever network and adapter do |
| `Mailboxes.SignalingMailboxes.Submit` | cpp/src/server.cpp:3236-3328 | The whole new mail and the receipt: older numbers, repetitions, conflicts, the control mailbox and the ordinary queue |
| `Mailboxes.SignalingMailboxes.ReadForPush` | cpp/src/server.cpp:3036-3126 | What is dropped by age and what is returned, in cursor order |
| `Mailboxes.SignalingMailboxes.AcknowledgeDelivery` | cpp/src/server.cpp:3128-3153 | What an acknowledged cursor removes and how many that are |
| `Mailboxes.SignalingMailboxes.EraseSession` | cpp/src/server.cpp:2234-2246 | Closing a session removes its entries and no others |
| `Mailboxes.SortOrders` | cpp/src/server.cpp:3093-3126 | The values come out in cursor order and none is lost or repeated |
| `Mailboxes.EnqueueKeepsInv` | cpp/src/server.cpp:3236-3328 | Queues stay in cursor order below the counter of their recipient; a control mailbox holds the last accepted control message of its sender |
| `Mailboxes.TakeKeepsInv` | cpp/src/server.cpp:3036-3126 | Reading keeps the same invariant |
| `Mailboxes.AcknowledgeKeepsInv` | cpp/src/server.cpp:3128-3153 | Acknowledging keeps the same invariant |
| `Mailboxes.EraseKeepsInv` | cpp/src/server.cpp:2234-2246 | Erasing a session keeps the same invariant |
| `MailRuns.QueuedInOrder` | cpp/src/server.cpp:3236-3328 | In every run the numbers queued on a sender stream and the cursors of a recipient strictly increase, so nothing is queued twice |
| `MailRuns.RetryChangesNothing` | cpp/src/server.cpp:3236-3328 | Re-sending the last queued message returns its original cursor and changes nothing, whatever happened to the queues meanwhile |
| `MailRuns.MailboxHoldsNewest` | cpp/src/server.cpp:3236-3328 | A control mailbox that is not empty holds the highest control number accepted from its sender |
| `Delivery.DriverInbox.AppendWebsocketMessages` | cpp/src/server.cpp:4791-4820 | The loop appends what lies beyond the cursor and reports a message that exceeds the envelope or one that is missing |
| `Delivery.AppendInOrder` | cpp/src/server.cpp:4791-4820 | An ordered envelope is appended without error, exactly beyond the cursor |
| `Delivery.PushKeepsInv` | cpp/src/server.cpp:2832-2930 | A push, also a repeated one, keeps queue, connection and inbox in agreement |
| `Delivery.AckKeepsInv` | cpp/src/server.cpp:2931-2999 | Handling an acknowledgement keeps that agreement and never fails |
| `Delivery.ReadKeepsInv` | cpp/src/server.cpp:4791-4820 | Reading a frame keeps that agreement and never fails |
| `Delivery.ReconnectKeepsInv` | cpp/src/server.cpp:4277-4310 | Replacing the connection of the same session keeps that agreement |
| `Delivery.DeliveredOnceInOrder` | cpp/src/server.cpp:2832-2999 | Over every interleaving the stream of the driver has no duplicate and is in cursor order; every accepted message is delivered, queued or dropped by age; neither protocol error is reachable |
| `Delivery.DeliveredIsPrefix` | cpp/src/server.cpp:4791-4820 | While nothing was dropped by age the stream is exactly the accepted messages up to the cursor |
| `Delivery.AckRemovesOnlyDelivered` | cpp/src/server.cpp:2931-2999 | An acknowledgement removes only messages that were sent on that connection and that the driver has appended |
| `Delivery.OneRoundDeliversEverything` | cpp/src/server.cpp:2832-2999 | From every such state one undisturbed reconnect, push, read and acknowledgement delivers everything accepted and leaves nothing queued |
| `SignalingService.SignalingService.CloseSession` | cpp/src/server.cpp:2234-2250 | Closes one session: no token, no mail |
| `SignalingService.SignalingService.CloseSessionsForDriver` | cpp/src/server.cpp:2117-2122 | The loop closes exactly the open sessions of the driver |
| `SignalingService.SignalingService.CloseSessionsForVehicle` | cpp/src/server.cpp:2110-2115 | The loop closes exactly the open sessions of the vehicle |
| `SignalingService.SignalingService.ExpireTokens` | cpp/src/server.cpp:2125-2140 | The loop drops every expired token, with the driver and the sessions that rest on it |
| `SignalingService.SignalingService.ExpireToken` | cpp/src/server.cpp:2126-2136 | One expired token: the driver goes offline only if the token is that of the current connection |
| `SignalingService.SignalingService.ExpireSessions` | cpp/src/server.cpp:2142-2149 | The loop closes every session whose control token has expired |
| `SignalingService.SignalingService.ExpireVehicles` | cpp/src/server.cpp:2151-2166 | The loop removes every silent vehicle and closes its sessions |
| `SignalingService.SignalingService.RemoveVehicle` | cpp/src/server.cpp:2156-2159 | One vehicle leaves with its sessions |
| `SignalingService.SignalingService.ExpireDrivers` | cpp/src/server.cpp:2168-2189 | The loop removes every silent driver with tokens and sessions |
| `SignalingService.SignalingService.RemoveTokens` | cpp/src/server.cpp:2176-2182 | The inner loop removes exactly the tokens of that connection |
| `SignalingService.SignalingService.RemoveDriver` | cpp/src/server.cpp:2173-2183 | One driver leaves with the tokens of the connection and the sessions |
| `SignalingService.SignalingService.CleanupMobileApprovals` | cpp/src/server.cpp:2525-2551 | The loop cancels approvals of connections that changed and expires late ones |
| `SignalingService.SignalingService.RefreshApproval` | cpp/src/server.cpp:2526-2544 | One approval: cancelled, expired or kept |
| `SignalingService.SignalingService.CleanupExpiredConnections` | cpp/src/server.cpp:2124-2191 | All five loops together are one function of the state |
| `SignalingService.SignalingService.ValidateDriverToken` | cpp/src/server.cpp:2060-2072 | The fault found, and the heartbeat it records otherwise |
| `SignalingService.SignalingService.ValidateDeviceToken` | cpp/src/server.cpp:2074-2080 | The fault found in a device token |
| `SignalingService.SignalingService.ValidateVehicleConnection` | cpp/src/server.cpp:2082-2095 | The fault found, and the heartbeat it records otherwise |
| `SignalingService.SignalingService.ValidateActor` | cpp/src/server.cpp:2097-2108 | Credentials of either side of an open session |
| `SignalingService.SignalingService.HandleDriverRevocation` | cpp/src/server.cpp:3536-3550 | Revocation closes the sessions and drops presence and every token |
| `SignalingService.SignalingService.HandleDriverRestoration` | cpp/src/server.cpp:3551-3556 | Restoring a driver does not bring the driver back online |
| `SignalingService.SignalingService.HandleVehicleRevocation` | cpp/src/server.cpp:3557-3564 | Revocation closes the sessions and drops presence |
| `SignalingService.SignalingService.HandleVehicleRestoration` | cpp/src/server.cpp:3565-3570 | Restoring a vehicle does not bring it back online |
| `SignalingService.SignalingService.HandleLogin` | cpp/src/server.cpp:3573-3611 | A second login of an online driver is refused; otherwise a new token of a new generation |
| `SignalingService.SignalingService.HandleDriverHeartbeat` | cpp/src/server.cpp:3612-3622 | A heartbeat with a current token moves only the time of the last sign of life |
| `SignalingService.SignalingService.HandleLogout` | cpp/src/server.cpp:3623-3638 | Logging out closes the sessions and drops token and presence |
| `SignalingService.SignalingService.HandleVehicleOnline` | cpp/src/server.cpp:3639-3672 | The same connection is refreshed; another one replaces it and closes the sessions |
| `SignalingService.SignalingService.HandleVehicleHeartbeat` | cpp/src/server.cpp:3673-3682 | A heartbeat of the current generation moves only the time of the last sign of life |
| `SignalingService.SignalingService.HandleVehicleOffline` | cpp/src/server.cpp:3683-3686 | Going offline needs the current generation and closes the sessions |
| `SignalingService.SignalingService.HandleCancellation` | cpp/src/server.cpp:3687-3710 | Cancelling ends the approval and the session it was spent on |
| `SignalingService.SignalingService.RequireMobileApproval` | cpp/src/server.cpp:2553-2598 | Who is let through, who is refused and why, and when a new request is made |
| `SignalingService.SignalingService.RequestMobileApproval` | cpp/src/server.cpp:2584-2597 | A new pending request, or none when it can not be recorded |
| `SignalingService.SignalingService.HandleSessionRequest` | cpp/src/server.cpp:3711-3788 | Every check in order, the double approval check, the spent approval and the failing records |
| `SignalingService.SignalingService.IsVehicleTaken` | cpp/src/server.cpp:3722-3733 | The loop over the sessions finds an open one of the vehicle if there is one |
| `SignalingService.SignalingService.SpendApproval` | cpp/src/server.cpp:3747 | The approval of the vehicle, if it needs one, becomes consumed |
| `SignalingService.SignalingService.StoreSession` | cpp/src/server.cpp:3749-3765 | The approval is spent before the session exists and then learns its number |
| `SignalingService.SignalingService.CheckAndGrant` | cpp/src/server.cpp:3734-3786 | Both approval checks around the slow records |
| `SignalingService.SignalingService.GrantSession` | cpp/src/server.cpp:3749-3786 | A new session, closed at once when a record fails |
| `SignalingService.SignalingService.HandleRenewal` | cpp/src/server.cpp:3789-3800 | Only the driver of the session moves its expiry |
| `SignalingService.SignalingService.HandleSessionEnd` | cpp/src/server.cpp:3810-3817 | Either participant ends the session |
| `SignalingService.SignalingService.HandleDecision` | cpp/src/server.cpp:2644-2666 | A decision on a pending request, once, or the same decision again |
| `SignalingService.SignalingService.HandleMessage` | cpp/src/server.cpp:3155-3235 | Route, participant and control token are checked before anything is queued |
| `SignalingService.SignalingService.HandleReading` | cpp/src/server.cpp:3036-3126 | Only a participant reads, and only the mail addressed to it |
| `SignalingService.SignalingService.HandleAcknowledgement` | cpp/src/server.cpp:3128-3153 | Only a participant acknowledges, and only the mail addressed to it |
| `SignalingService.SignalingService.Handle` | cpp/src/server.cpp:2670-2720 | Any request on the object is the specified step, expired connections first |
| `SignalingService.CloseOneByOne` | cpp/src/server.cpp:2234-2250 | Closing sessions one after the other, in any grouping, is closing them at once |
| `SignalingService.DropTokenByToken` | cpp/src/server.cpp:2125-2140 | The token loop does not depend on its order |
| `SignalingService.DropVehicleByVehicle` | cpp/src/server.cpp:2151-2166 | The vehicle loop does not depend on its order |
| `SignalingService.DropDriverByDriver` | cpp/src/server.cpp:2168-2189 | The driver loop does not depend on its order |
| `CloudRuns.RunKeepsPeople` | cpp/src/server.cpp:2060-2191 | In every run tokens and online drivers correspond one to one with equal generations, generations are unique and nobody revoked is online |
| `CloudRuns.RunKeepsSessions` | cpp/src/server.cpp:3711-3788 | In every run open sessions have distinct vehicles and tokens, and online, permitted participants |
| `CloudRuns.RunKeepsQueues` | cpp/src/server.cpp:2234-2250 | In every run all mail belongs to the participants of open sessions and the mail invariant holds |
| `CloudRuns.CloseKeepsQueues` | cpp/src/server.cpp:2234-2250 | Closing takes everything that waits for a session and nothing else |
| `CloudRuns.LeavingKeepsSessions` | cpp/src/server.cpp:2110-2191 | Whoever leaves, their open sessions are closed |
| `CloudRuns.AuthorityIsExclusive` | cpp/src/server.cpp:3711-3788 | In every run an open session is the only one of its vehicle, its token is its own, and both sides are online, unrevoked and permitted |
| `CloudRuns.NothingOutlivesItsSession` | cpp/src/server.cpp:2234-2250 | No queue, mailbox, cursor or dedupe entry of a session that is not open exists in any run |
| `CloudTokens.EverySessionIsExplained` | cpp/src/server.cpp:3752-3786 | In every run each session was created by one request, and its token and state show whether its creation could be recorded |
| `CloudTokens.TokenOutlivesExactly` | cpp/src/server.cpp:3783-3786 | In every run a closed session still has a control token if and only if the creation of that session could not be recorded |
| `CloudTokens.CreatedOnce` | cpp/src/server.cpp:3749-3760 | The request that created a session is unique |
| `CloudTokens.TokenMayOutliveSession` | cpp/src/server.cpp:3783-3786 | A run of three requests that ends in a closed session with a control token |
| `CloudGrants.CheckedExactly` | cpp/src/server.cpp:2553-2598 | The approval check passes if and only if the driver holds the approved, current, unexpired request, and then it changes nothing about it |
| `CloudGrants.GrantedExactly` | cpp/src/server.cpp:3711-3788 | A session request succeeds if and only if the credential is current, the driver permitted, the vehicle online and free, a needed approval held before and after the slow records, and every record written |
| `CloudGrants.GrantHandsOver` | cpp/src/server.cpp:3749-3788 | A grant leaves exactly one open session of the vehicle, with a fresh token, and the approval can not be used again |
| `CloudApprovals.DecisionKeepsInv` | cpp/src/server.cpp:2644-2666 | A decision keeps every approval backed by a request and a timely decision in the record |
| `CloudApprovals.GrantKeepsInv` | cpp/src/server.cpp:3741-3788 | A grant spends the approval it rests on |
| `CloudApprovals.FailedGrantIsUntouched` | cpp/src/server.cpp:3766-3786 | A grant that fails for want of a record differs only in the session: the approval is spent all the same |
| `CloudApprovals.EverySessionSpendsOneApproval` | cpp/src/server.cpp:3735-3765 | In every run each session of an approval vehicle spent an approval of its own: asked for by its driver on the connections both had at the grant, approved and spent before the deadline, and spent on no other session |
| `ChunkUpload.EncodeHex` | cpp/src/session_logs.cpp:266-271 | The loop builds the hexadecimal text |
| `ChunkUpload.DecodeHex` | cpp/src/session_logs.cpp:272-282 | The loop reads exactly the well-formed texts of a chunk |
| `ChunkUpload.UnhexOfHex` | cpp/src/session_logs.cpp:266-282 | Decoding an encoding gives the bytes back, up to the size of a chunk |
| `ChunkUpload.HexOfUnhex` | cpp/src/session_logs.cpp:266-282 | Encoding a decoding gives the text back, so no two texts mean the same bytes |
| `ChunkUpload.ExportJob.AppendChunk` | cpp/src/session_logs.cpp:386-408 | The new files and the answer: retry, offset mismatch, and every way in which opening, writing, closing or measuring the file may fail |
| `ChunkUpload.ExportJob.CheckReport` | cpp/src/session_logs.cpp:660-673 | The report lists both files once, complete and with a known status |
| `ChunkUpload.ExportJob.FailVehicle` | cpp/src/session_logs.cpp:467-476 | Closing an upload lists exactly what had arrived |
| `ChunkUpload.ExportJob.ExpireVehicle` | cpp/src/session_logs.cpp:477-481 | An upload that stopped making progress is closed with what had arrived |
| `ChunkUpload.ExportJob.Vehicle` | cpp/src/session_logs.cpp:625-673 | The whole new job and the answer for every operation |
| `ChunkUpload.ResendingIsHarmless` | cpp/src/session_logs.cpp:397-405 | A chunk of the snapshot that has arrived before is acknowledged again without writing |
| `ChunkUpload.AppendKeepsPrefix` | cpp/src/session_logs.cpp:386-408 | A chunk of the snapshot leaves the file a prefix of it, even after a write that is cut short or lost |
| `ChunkUpload.AcceptedIsThere` | cpp/src/session_logs.cpp:386-408 | Once a chunk is accepted everything up to its end is there if and only if the write was not lost when the stream was closed |
| `ChunkUpload.StoredIsPrefix` | cpp/src/session_logs.cpp:625-673 | Under any losses, repetitions and reorderings each stored file is a prefix of the snapshot, and a stored report means equality |
| `ChunkUpload.AcceptedFinishMeansEqual` | cpp/src/session_logs.cpp:660-673 | An accepted final report means that the server holds the snapshot byte for byte |
| `ChunkUpload.OneRequestCounts` | cpp/src/session_logs.cpp:650-659 | Stored and counted bytes grow alike, unless a write ends in an error |
| `ChunkUpload.RequestKeepsInv` | cpp/src/session_logs.cpp:625-673 | Every request of an honest worker keeps the stored files prefixes of the snapshot |
| `ChunkUpload.CountedIsStored` | cpp/src/session_logs.cpp:650-659 | The byte counter equals the stored sizes if and only if no chunk reached its file and ended in an error, and is never too high |
| `ChunkUpload.CounterMayLag` | cpp/src/session_logs.cpp:650-659 | A run of one request, cut short by the disk, after which a stored byte is not counted |
| `UploadWorker.Worker.Call` | cpp/src/session_logs.cpp:691-702 | At most three attempts; an accepted answer means that the request took effect, unless a write was lost; an undisturbed first attempt is the only one |
| `UploadWorker.Worker.SendChunk` | cpp/src/session_logs.cpp:717-723 | One chunk: accepted, unless a write is lost the file has arrived up to its end; undisturbed it is accepted |
| `UploadWorker.Worker.SendFile` | cpp/src/session_logs.cpp:714-726 | The offset loop: completing it means the file has arrived whole unless a write was lost, and undisturbed it completes |
| `UploadWorker.Worker.Upload` | cpp/src/session_logs.cpp:712-729 | Completing the upload means that the server holds the snapshot and its report; an undisturbed upload completes |
| `UploadWorker.Worker.Attempt` | cpp/src/session_logs.cpp:694-700 | One exchange, whose request or response may be lost; undisturbed it is exactly one request to the server |
| `UploadWorker.AcceptanceConfirms` | cpp/src/session_logs.cpp:625-673 | What an accepted answer tells an honest worker about the server, unless the write was lost |
| `UploadWorker.FinishIsNotRefused` | cpp/src/session_logs.cpp:660-673 | Once everything has arrived the report is never refused |
| `UploadWorker.ChunkIsAccepted` | cpp/src/session_logs.cpp:386-408 | An undisturbed chunk at or before the end of a file that does not break off inside a chunk is accepted |
| `Crc.EightStepsAreOneLookup` | cpp/src/session_logs.cpp:413-427 | Eight bitwise division steps are a shift by a byte and one lookup of the low byte |
| `Crc.MakeTable` | cpp/src/session_logs.cpp:413-420 | The table holds the bitwise division of every byte |
| `Crc.TableEntry` | cpp/src/session_logs.cpp:416-417 | Eight shifts give the table entry |
| `Crc.Checksum` | cpp/src/session_logs.cpp:424-430 | The table-driven checksum is the bitwise one |
| `Zip.NothingOverflows` | cpp/src/session_logs.cpp:421-454 | The limits on files keep the archive, and with it every size and offset, below 2^32 |
| `Zip.ArchiveRoundTrip` | cpp/src/session_logs.cpp:434-454 | A reader following sections 4.3.7, 4.3.12 and 4.3.16 of the PKWARE APPNOTE recovers exactly the names and contents written, in order |
| `ZipWriter.Put` | cpp/src/session_logs.cpp:435 | Writes a number least significant byte first |
| `ZipWriter.PutAll` | cpp/src/session_logs.cpp:438-439 | A header is its numbers one after the other |
| `ZipWriter.WriteLocals` | cpp/src/session_logs.cpp:436-442 | The first loop writes the local entries and remembers the offset of each |
| `ZipWriter.WriteLocal` | cpp/src/session_logs.cpp:437-441 | One local entry |
| `ZipWriter.WriteCentrals` | cpp/src/session_logs.cpp:444-448 | The second loop writes the directory |
| `ZipWriter.WriteArchive` | cpp/src/session_logs.cpp:434-453 | Local entries, directory and end record are the archive as specified |
| `ZipWriter.Collect` | cpp/src/session_logs.cpp:421-433 | The files are sorted by name; one that is too large refuses the export |
| `ZipWriter.InsertInPlace` | cpp/src/session_logs.cpp:433 | Sorting puts a file behind the names before it |
| `ZipWriter.Measure` | cpp/src/session_logs.cpp:421-431 | Size and checksum of every file |
| `ZipWriter.OneListing` | cpp/src/session_logs.cpp:433 | A directory has only one sorted listing |
| `ZipWriter.WriteSessionZip` | cpp/src/session_logs.cpp:410-454 | Refuses exactly a file that is too large or too many files; otherwise a reader gets the directory back |
| `RotatingLog.AppendedKeepsEnd` | cpp/apps/mine_teleop_launcher.cpp:208-233 | An append, with whatever rotations, leaves the end of what was written before it and the record |
| `RotatingLog.SmallRecordStaysWhole` | cpp/apps/mine_teleop_launcher.cpp:212-216 | A record that fits a file is never split over two |
| `RotatingLog.FilesStayWithin` | cpp/apps/mine_teleop_launcher.cpp:208-233 | Only files that were there before may be larger than the limit |
| `RotatingLog.StreamIsKept` | cpp/apps/mine_teleop_launcher.cpp:208-314 | After any number of appends backups and active file are a suffix of the whole stream |
| `RotatingLog.RotatingRuntimeLog.OpenActive` | cpp/apps/mine_teleop_launcher.cpp:240-278 | Succeeds if and only if every system call works; counts the bytes of the file that is there, or truncates it |
| `RotatingLog.RotatingRuntimeLog.Fail` | cpp/apps/mine_teleop_launcher.cpp:286-292 | A failed step leaves the files alone and opens the active one again |
| `RotatingLog.RotatingRuntimeLog.DropOldest` | cpp/apps/mine_teleop_launcher.cpp:297-300 | Only the oldest backup is removed |
| `RotatingLog.RotatingRuntimeLog.ShiftBackups` | cpp/apps/mine_teleop_launcher.cpp:295-305 | Renaming from the older to the newer moves every backup by one place |
| `RotatingLog.RotatingRuntimeLog.RetireActive` | cpp/apps/mine_teleop_launcher.cpp:306-309 | The active file becomes the first backup |
| `RotatingLog.RotatingRuntimeLog.Rotate` | cpp/apps/mine_teleop_launcher.cpp:281-314 | Succeeds if and only if every system call works, and then retires the active file; one that fails anywhere keeps what is on disk the end of the stream |
| `RotatingLog.RotatingRuntimeLog.Open` | cpp/apps/mine_teleop_launcher.cpp:152-206 | Succeeds if and only if every system call works; then a full file has been rotated and any other left alone |
| `RotatingLog.RotatingRuntimeLog.Append` | cpp/apps/mine_teleop_launcher.cpp:208-233 | The loop appends the record as specified if and only if the log is open and every system call works; otherwise a prefix of it was written |
| `RotatingLog.RotatingRuntimeLog.WriteOn` | cpp/apps/mine_teleop_launcher.cpp:217-230 | One turn of the write loop, after a rotation if the file is full |
| `RotatingLog.RotatingRuntimeLog.StartRecord` | cpp/apps/mine_teleop_launcher.cpp:213-214 | A record that would not fit the rest of the file starts a new one |
| `RotatingLog.RotatingRuntimeLog.MakeRoom` | cpp/apps/mine_teleop_launcher.cpp:218 | A full file is rotated before more is written |
| `RotatingLog.RotatingRuntimeLog.WriteSome` | cpp/apps/mine_teleop_launcher.cpp:217-230 | One turn of the loop writes what the active file has room for |
| `LineSplitter.StripTwice` | cpp/apps/mine_teleop_launcher.cpp:398-405 | Stripping leading resets is idempotent |
| `LineSplitter.StripLeadingResets` | cpp/apps/mine_teleop_launcher.cpp:398-405 | The loop strips exactly the leading resets |
| `LineSplitter.RecordSurvivesMarker` | cpp/apps/mine_teleop_launcher.cpp:457-482 | A marker attached to a structured record, before or behind it, is taken off and the record is left as it was, for any markers without braces |
| `VendorMarkers.RecordSurvivesVendor` | cpp/apps/mine_teleop_launcher.cpp:457-482 | The same for the four markers of the vendor |
| `LineSplitter.SanitizeLine` | cpp/apps/mine_teleop_launcher.cpp:442-492 | Every branch of the sanitiser |
| `LineSplitter.RemoveMarkers` | cpp/apps/mine_teleop_launcher.cpp:457-482 | The loop over the markers removes exactly the attached ones |
| `LineSplitter.LinesOfSum` | cpp/apps/mine_teleop_launcher.cpp:521-534 | The lines of a stream are those of its beginning and those its rest gives with what follows |
| `LineSplitter.RelayedSoFar` | cpp/apps/mine_teleop_launcher.cpp:497-549 | What is persisted and pending depends only on the bytes read so far |
| `LineSplitter.CutsDoNotMatter` | cpp/apps/mine_teleop_launcher.cpp:497-549 | Without overlong lines the records of a finished stream are the cleaning of each of its lines, however it was cut into reads |
| `LineSplitter.RelayStream.DrainLines` | cpp/apps/mine_teleop_launcher.cpp:521-539 | The loop relays every complete line and keeps the rest, or stops for good at exactly the first record that the log refuses |
| `LineSplitter.RelayStream.Offer` | cpp/apps/mine_teleop_launcher.cpp:507-532 | A record that the log takes is kept, one that it refuses ends the relaying for good |
| `LineSplitter.RelayStream.PersistLine` | cpp/apps/mine_teleop_launcher.cpp:523-532 | The first complete line is stripped, cleaned and offered, and taken or refused |
| `LineSplitter.RelayStream.FlushPending` | cpp/apps/mine_teleop_launcher.cpp:540-548 | An overlong or final incomplete line is relayed as it is, or refused |
| `LineSplitter.RelayStream.Persist` | cpp/apps/mine_teleop_launcher.cpp:497-549 | One read: the new pending bytes and records; the stream stays enabled if and only if the log takes every record |
| `ClockSync.SampleBound` | cpp/src/http.cpp:254-262 | One sample is off by at most half its round trip, rounded up |
| `ClockSync.ByTripSorts` | cpp/src/http.cpp:264-266 | Sorting keeps the samples and orders them by round trip |
| `ClockSync.EstimateBound` | cpp/src/http.cpp:267-283 | The median of the three quickest is off by at most half the best round trip plus the spread |
| `ClockSync.SynchronizedBound` | cpp/src/http.cpp:236-290 | For every number of samples the offset is within twice the stated uncertainty of the true one |
| `ClockSync.HonestExactly` | cpp/src/http.cpp:254-262 | The offsets that the exchanges leave possible are exactly those between two bounds computed from them |
| `ClockSync.StatedUncertaintyExactly` | cpp/src/http.cpp:267-283 | The stated uncertainty covers every offset that the exchanges leave possible if and only if they leave none or it covers both bounds |
| `ClockSync.TwiceTheUncertaintyIsAttained` | cpp/src/http.cpp:275-283 | Three honest samples for which the error is exactly twice the stated uncertainty, since that is a maximum and not a sum |
| `ClockSync.SynchronizedClock.Synchronize` | cpp/src/http.cpp:236-291 | The loops compute that estimate; an unusable sample leaves the clock as it was |
| `ClockSync.SynchronizedClock.Now` | cpp/src/http.cpp:293-298 | The anchor plus the elapsed steady time, or the local time before the first synchronisation |
| `Uploader.CrashKeepsInv` | cpp/src/upload.cpp:142-181 | An upload that stops after any step, or in the middle of one, keeps the promise: a source marked uploaded has an equal archived video and archived metadata |
| `Uploader.AttemptKeepsInv` | cpp/src/upload.cpp:121-181 | One call, cut short anywhere, keeps it and the set of metadata files |
| `Uploader.EveryRunKeepsInv` | cpp/src/upload.cpp:121-181 | Any number of crashes and restarts keeps it |
| `Uploader.FullUploadShrinksBacklog` | cpp/src/upload.cpp:121-181 | An upload that is not cut short takes exactly its segment off the backlog |
| `Uploader.FirstBlocksTheRest` | cpp/src/upload.cpp:124-140 | A first segment that cannot be uploaded holds up everything behind it, for ever |
| `Uploader.DrainsExactly` | cpp/src/upload.cpp:121-181 | As many undisturbed calls as there are files finish all of them if and only if every one that is not done can be uploaded |
| `Uploader.CorruptFileBlocks` | cpp/src/upload.cpp:130-137 | A disk on which an unreadable file keeps a segment behind it from ever being uploaded |
| `Uploader.CompletesExactly` | cpp/src/upload.cpp:142-181 | An upload is completed if and only if no file step fails and the copy is faithful |
| `Uploader.LocalArchiveUploader.Perform` | cpp/src/upload.cpp:30-54 | One file step, done or cut short as the file system decides |
| `Uploader.LocalArchiveUploader.Proceed` | cpp/src/upload.cpp:30-54 | One step of an upload: it is done, or the upload ends exactly there |
| `Uploader.LocalArchiveUploader.CopyVerified` | cpp/src/upload.cpp:42-54 | The four steps of a verified copy: all are done, or the upload ends exactly where a step or the comparison fails |
| `Uploader.LocalArchiveUploader.PrepareCopy` | cpp/src/upload.cpp:44-51 | The temporary copy equals the video, or the upload ends with it removed again or left behind |
| `Uploader.LocalArchiveUploader.UploadMetadata` | cpp/src/upload.cpp:142-181 | An upload takes exactly the specified steps up to the first that fails, and succeeds if and only if none does |
| `Uploader.LocalArchiveUploader.ProcessOnce` | cpp/src/upload.cpp:121-140 | The scan and the upload of the first file that is not done are the specified attempt; it succeeds if and only if the file can be uploaded and nothing fails |

## Left out

What the model simplifies:

- Doubles are reals: every value is finite and nothing is rounded.
- Integers are unbounded. 64-bit counters and times are assumed not to overflow; the saturating addition of a renewed expiry (cpp/src/server.cpp:3795-3798) is plain addition. The 32-bit and 16-bit fields of the archive are explicit.
- Error texts, issue codes and warnings are values of a datatype; gears other than the four known ones are one value.
- An adapter call that throws is one outcome. An exception that is not a `std::exception`, which the feedback poll would not catch, is not modelled.
- Reports such as status and summary.
- Random tokens, request numbers and session numbers never repeat. The token zero stands for the empty string.
- Queue keys are pairs and triples, so the concatenated keys of the source cannot collide.
- A request to the signaling service is one step under its mutex, and reads the clock once; a session request reads the steady clock again after its slow records. The states a session passes through inside one such step are not visible.
- Writing an audit record has no effect. Its failure matters only where the source asks for it, and for the record of a new session.
- The 500 ms timer of repeated pushes is a free choice at every push. Messages are dropped by age when they are read.
- SHA-256 equality of two files is equality of their bytes.
- A file that is missing and a file that is empty are the same to the rotating log; opening, locking, permission and link checks are one call that works or does not.
- The directory scans of the archive writer and of the recording uploader see a fixed set of files; the archive writer reads each file once.
- The vendor line format, the timestamp and the JSON dressing of a persisted line are parameters of the line splitter.
- Clock readings are exact; the network enters as four timestamps.

What is not modelled at all:

- Sockets, TLS, HTTP and WebSocket framing, JSON parsing, threads and condition variables, configuration and argument loading.
- The consuming HTTP read of messages, a second consumer beside the push protocol, and envelopes without cursors.
- Payload and SDP size checks, message formats and TURN credentials.
- Approver login, rate limits, the catalogue of log sessions, turn usage.
- Several log exports at once, receipts of released exports, the download to the driver, and log collection and redaction.
- Video, cameras, the browser page, CAN, adapter libraries and their ABI.
- Bandwidth throttling of the recording uploader.

Statements that are weaker than they could be:

- VehicleControl.VehicleControlService.TickControl: leaves out the telemetry snapshot that may close a tick; its adapter calls only read, and the source ignores their failure.
- SignalingService.SignalingService.Handle: covers the routes that change presence, tokens, sessions, approvals and mail; reports, ICE servers and log exports are left out.
- Delivery.DriverInbox.AppendWebsocketMessages: covers envelopes with a cursor, the only kind that the push loop sends.
- ChunkUpload.ExportJob.CheckReport: refuses a report of a file that never arrived; the source answers a server error, which the worker retries.
- UploadWorker.Worker.Upload: promises completion when the attempts are undisturbed and no stored file breaks off inside a chunk; what exactly happens under each disturbance is not spelled out.
- Delivery.DeliveredIsPrefix: assumes that no message was dropped by age; with drops `Delivery.DeliveredOnceInOrder` accounts for every message but the stream has gaps.
- LineSplitter.CutsDoNotMatter: assumes that no line is longer than the pending limit of 64 KiB, since the source cuts longer ones where the read ended.
- VehicleTimeout.NoTractionAfterTimeout: assumes a clock that never runs backwards, as the source takes its times from outside.
- RotatingLog.RotatingRuntimeLog.Append: after a failure it says that a prefix of the record was written, and not how long a prefix.
