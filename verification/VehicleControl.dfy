/** The vehicle control service as the object the runtime holds. Each method is
    proved to take exactly the step its specification in VehicleService takes, for
    every adapter behaviour. */
module VehicleControl {
  import opened ControlTypes
  import opened VehicleService
  import S = Safety
  import R = Receiver

  class VehicleControlService {
    const limits: Limits
    const receiver: R.ControlReceiver
    const safety: S.SafetyStateMachine
    const adapter: VehicleAdapter
    var started: bool
    var adapterStopActive: bool
    var activeProfile: Option<Profile>
    var lastEffectiveCommand: Option<Command>
    var lastRequest: Option<ProfileRequest>
    var lastResult: Option<ProfileResult>

    ghost predicate Valid() {
      receiver.config == limits.receiver && safety.config == limits.safety
    }

    ghost function W(): World {
      World(limits, adapter.answers)
    }

    ghost function View(): Vehicle
      reads this, receiver, safety, adapter
    {
      Vehicle(
        started, receiver.View(), safety.View(), adapterStopActive, activeProfile,
        lastEffectiveCommand, lastRequest, lastResult, adapter.trace)
    }

    constructor (limits: Limits, adapter: VehicleAdapter)
      requires limits.Valid()
      requires adapter.trace == []
      ensures Valid() && this.limits == limits && this.adapter == adapter
      ensures View() == NEW_VEHICLE
    {
      this.limits := limits;
      this.adapter := adapter;
      receiver := new R.ControlReceiver(limits.receiver);
      safety := new S.SafetyStateMachine(limits.safety);
      started, adapterStopActive := false, false;
      activeProfile, lastEffectiveCommand, lastRequest, lastResult := None, None, None, None;
    }

    method Start() returns (outcome: Outcome<()>)
      requires Valid()
      modifies this, receiver, safety, adapter
      ensures (View(), outcome) == AfterStart(W(), old(View()))
    {
      if started {
        return Returned(());
      }
      var opening := Ask(Open);
      if opening.failed {
        return Threw;
      }
      var cleared := Ask(ClearRuntimeProfile);
      if cleared.failed {
        var _ := Ask(CloseAdapter);
        return Threw;
      }
      safety.MarkReady();
      started := true;
      return Returned(());
    }

    /** One call of the adapter, with whatever answer it gives. */
    method Ask(call: Call) returns (answer: Answer)
      modifies adapter
      ensures View() == old(View()).Ask(call) && answer == old(View()).Reply(W())
    {
      answer := adapter.Invoke(call);
    }

    method ClearSessionProfile()
      requires Valid()
      modifies this, adapter
      ensures View() == AfterClear(old(View()))
    {
      activeProfile := None;
      lastEffectiveCommand := None;
      if lastResult.Some? {
        lastResult := Some(lastResult.value.(
          accepted := false, idempotent := false, appliedRevision := 0,
          reason := SessionProfileCleared, effective := None));
      }
      var _ := Ask(ClearRuntimeProfile);
    }

    method RefreshAdapterStop() returns (observed: bool)
      requires Valid()
      modifies this, adapter
      ensures (View(), observed) == AfterRefresh(W(), old(View()))
    {
      var telemetry := Ask(ReadTelemetry);
      if telemetry.failed {
        return false;
      }
      var handshake := Ask(ReadHandshake);
      if handshake.failed {
        return false;
      }
      adapterStopActive := telemetry.estop || handshake.disarming;
      if adapterStopActive {
        ClearSessionProfile();
      }
      return true;
    }

    method EvaluateWatchdog(now: int) returns (safe: bool)
      requires Valid()
      modifies this, safety, adapter
      ensures (View(), safe) == AfterWatchdog(W(), old(View()), now)
    {
      safety.Tick(now);
      if safety.state == S.Degraded || safety.state == S.TimeoutBrake
        || safety.state == S.Estop || safety.state == S.Fault
      {
        // Traction authority is revoked before the adapter is touched.
        if safety.state != S.Degraded {
          ClearSessionProfile();
        }
        var adapterOwnsStop :=
          adapterStopActive && (safety.state == S.Degraded || safety.state == S.TimeoutBrake);
        if !adapterOwnsStop {
          var source, reason := SoftwareFault, VcuStateFault;
          if safety.state == S.Degraded || safety.state == S.TimeoutBrake {
            source, reason := Watchdog, OuterControlTimeout;
          } else if safety.state == S.Estop {
            source, reason := DriverPage, OperatorEstop;
          }
          var output := safety.CurrentOutput(now);
          var stopped := Ask(SafeStop(output, source, reason));
          return !stopped.failed;
        }
      }
      return true;
    }

    method ReceiveCommand(command: Command, now: int) returns (outcome: Outcome<Receipt>)
      requires Valid()
      modifies this, receiver, safety, adapter
      ensures (View(), outcome) == AfterCommand(W(), old(View()), command, now)
    {
      if !started {
        return Threw;
      }
      var admission := Admit(command, now);
      if admission.Threw? {
        return Threw;
      }
      var verdict := admission.value;
      if !verdict.accepted {
        return Refusal(verdict.reason, verdict.warnings);
      }
      if !command.estop && activeProfile.None? {
        if !adapterStopActive {
          var stopped := Ask(SafeStop(SOFTWARE_STOP, SoftwareFault, SessionProfileRequired));
          if stopped.failed {
            return Threw;
          }
        }
        return Refusal(SessionControlProfileRequired, []);
      }
      if !command.estop && safety.state == S.Degraded
        && (command.throttle > TOLERANCE || Abs(command.steering) > TOLERANCE)
      {
        return Refusal(DegradedNeutralRequired, verdict.warnings);
      }
      var effective, warnings := Limit(command);
      outcome := Forward(effective, now, verdict.warnings + warnings);
    }

    method Admit(command: Command, now: int) returns (outcome: Outcome<R.Verdict>)
      requires Valid()
      modifies this, receiver, safety, adapter
      ensures (View(), outcome) == AfterAdmission(W(), old(View()), command, now)
    {
      var verdict: Option<R.Verdict>;
      if command.estop {
        verdict := receiver.Accept(command, now);
        if verdict.None? {
          return Threw;
        }
        if verdict.value.accepted {
          safety.OnValidCommand(command, now);
          ClearSessionProfile();
        } else {
          var safe := EvaluateWatchdog(now);
          if !safe {
            return Threw;
          }
        }
      } else {
        var safe := EvaluateWatchdog(now);
        if !safe {
          return Threw;
        }
        verdict := receiver.Accept(command, now);
        if verdict.None? {
          return Threw;
        }
      }
      return Returned(verdict.value);
    }

    method Limit(command: Command) returns (effective: Command, warnings: seq<Cause>)
      requires Valid()
      ensures effective == Limited(limits, activeProfile, command)
      ensures warnings == LimitWarnings(limits, activeProfile, command)
    {
      effective, warnings := command, [];
      var byVehicle := MinReal(command.throttle, limits.maxThrottle);
      var sessionThrottle := limits.maxThrottle;
      var sessionSteering := limits.maxSteeringDeg;
      if activeProfile.Some? {
        sessionThrottle := if limits.maxSpeedKph > 0.0
          then activeProfile.value.targetSpeedKph / limits.maxSpeedKph else 0.0;
        sessionSteering := activeProfile.value.maxSteeringDeg;
      }
      var throttle := MinReal(byVehicle, sessionThrottle);
      var steeringLimit := MinReal(limits.maxSteeringDeg, sessionSteering) / 30.0;
      var steering := Clamp(command.steering, -steeringLimit, steeringLimit);
      if byVehicle != command.throttle {
        warnings := warnings + [VehicleMaxThrottleApplied];
      }
      if throttle != byVehicle {
        warnings := warnings + [SessionTargetSpeedApplied];
      }
      effective := effective.(throttle := throttle);
      if steering != command.steering {
        warnings := warnings + [
          if activeProfile.Some? && sessionSteering + TOLERANCE < limits.maxSteeringDeg
          then SessionMaxSteeringApplied else VehicleMaxSteeringApplied];
        effective := effective.(steering := steering);
      }
    }

    method Forward(command: Command, now: int, warnings: seq<Cause>) returns (outcome: Outcome<Receipt>)
      requires Valid()
      modifies this, receiver, safety, adapter
      ensures (View(), outcome) == AfterForwarding(W(), old(View()), command, now, warnings)
    {
      if command.estop {
        var _ := RefreshAdapterStop();
        outcome := LatchedStop(command, now, command, warnings);
        return;
      }
      var poll := Ask(PollFeedback);
      var observed := RefreshAdapterStop();
      if adapterStopActive {
        return Refusal(AdapterSafeStopActive, warnings);
      }
      if !observed {
        outcome := FaultStop(
          now, AdapterSafetyStatusUnavailable, StopStatusUnreadable, warnings);
        return;
      }
      if poll.failed && limits.requireFeedback {
        outcome := FaultStop(now, CanFeedbackMissing, CanFeedbackPollFailed, warnings);
        return;
      }
      if limits.requireFeedback {
        var ready := Ask(FeedbackReady);
        if ready.failed {
          return Threw;
        }
        if !ready.granted {
          outcome := StopAndClear(
            SafeStop(SOFTWARE_STOP, SoftwareFault, CanFeedbackMissing), FeedbackMissing, warnings);
          return;
        }
      }
      outcome := Actuate(command, now, warnings);
    }

    method FaultStop(now: int, reason: StopReason, why: Cause, warnings: seq<Cause>)
      returns (outcome: Outcome<Receipt>)
      requires Valid()
      modifies this, safety, adapter
      ensures (View(), outcome) == AfterFaultStop(W(), old(View()), now, reason, why, warnings)
    {
      safety.MarkFault();
      var output := safety.CurrentOutput(now);
      outcome := StopAndClear(SafeStop(output, SoftwareFault, reason), why, warnings);
    }

    method StopAndClear(stop: Call, why: Cause, warnings: seq<Cause>) returns (outcome: Outcome<Receipt>)
      requires Valid()
      modifies this, adapter
      ensures (View(), outcome) == AfterStop(W(), old(View()), stop, why, warnings)
    {
      var stopped := Ask(stop);
      if stopped.failed {
        outcome := Threw;
      } else {
        ClearSessionProfile();
        outcome := Refusal(why, warnings);
      }
    }

    method Actuate(command: Command, now: int, warnings: seq<Cause>) returns (outcome: Outcome<Receipt>)
      requires Valid()
      modifies this, safety, adapter
      ensures (View(), outcome) == AfterActuation(W(), old(View()), command, now, warnings)
    {
      var safetyCommand := command;
      if activeProfile.Some? {
        var brake := VehicleBrakeRequest(command.brake, activeProfile.value.maxBrakeBar, limits.maxBrakeBar);
        if brake.None? {
          return Threw;
        }
        safetyCommand := safetyCommand.(brake := brake.value);
      }
      if safety.state != S.Estop && safety.state != S.Fault {
        var applied := Ask(ApplyControl(command));
        if applied.failed {
          return if applied.rejected then Refusal(AdapterControlRejected, warnings) else Threw;
        }
        safety.OnValidCommand(safetyCommand, now);
        lastEffectiveCommand := Some(command);
        return Returned(Receipt(true, AsRequested, Some(command), warnings));
      }
      outcome := LatchedStop(safetyCommand, now, command, warnings);
    }

    method LatchedStop(safetyCommand: Command, now: int, command: Command, warnings: seq<Cause>)
      returns (outcome: Outcome<Receipt>)
      requires Valid()
      modifies this, safety, adapter
      ensures (View(), outcome) ==
        AfterLatchedStop(W(), old(View()), safetyCommand, now, command, warnings)
    {
      safety.OnValidCommand(safetyCommand, now);
      if !adapterStopActive || safety.state == S.Estop || safety.state == S.Fault {
        if safety.state == S.Estop || safety.state == S.Fault {
          ClearSessionProfile();
        }
        var source, reason := SoftwareFault, VcuStateFault;
        if safety.state == S.Estop {
          source, reason := DriverPage, OperatorEstop;
        }
        var output := safety.CurrentOutput(now);
        var stopped := Ask(SafeStop(output, source, reason));
        if stopped.failed {
          return Threw;
        }
      }
      return Returned(Receipt(true, AsRequested, Some(command), warnings));
    }

    method ReceiveSessionProfile(request: ProfileRequest, now: int) returns (outcome: Outcome<ProfileResult>)
      requires Valid()
      modifies this, safety, adapter
      ensures (View(), outcome) == AfterProfile(W(), old(View()), request, now)
    {
      if !started || now < 0 {
        return Threw;
      }
      var refusal := None;
      if !request.meta.Valid() || request.token == "" {
        refusal := Some(InvalidProfile);
      } else if request.meta.vehicle != limits.receiver.vehicle {
        refusal := Some(WrongVehicle);
      } else if request.meta.driver != limits.receiver.driver {
        refusal := Some(WrongDriver);
      } else if request.meta.session != limits.receiver.session {
        refusal := Some(WrongSession);
      } else if request.token != limits.receiver.token {
        refusal := Some(ControlTokenInvalid);
      } else if lastRequest.Some? && request.meta.number < lastRequest.value.meta.number {
        refusal := Some(OldSeq);
      }
      if refusal.Some? {
        var answer := Answered(request, now, false, false, refusal.value);
        return Returned(answer);
      }
      if lastRequest.Some? && request.meta.number == lastRequest.value.meta.number {
        outcome := Replay(request, now);
        return;
      }
      if !request.profile.Valid() {
        refusal := Some(InvalidProfile);
      } else if now - request.meta.sentAt > PROFILE_MAX_AGE_MS {
        refusal := Some(ProfileAgeExceeded);
      } else if now - request.meta.sentAt < -PROFILE_MAX_AGE_MS {
        refusal := Some(ProfileTimestampInFuture);
      }
      if refusal.Some? {
        var answer := Answered(request, now, false, false, refusal.value);
        return Returned(answer);
      }
      outcome := ConsiderProfile(request, now);
    }

    method Answered(request: ProfileRequest, now: int, accepted: bool, idempotent: bool, reason: Cause)
      returns (answer: ProfileResult)
      requires Valid()
      ensures answer == ProfileReply(W(), activeProfile, request, now, accepted, idempotent, reason)
    {
      var number := if request.meta.number == 0 then 1 else request.meta.number;
      answer := ProfileResult(
        Metadata(
          PROTOCOL_VERSION, limits.receiver.vehicle, limits.receiver.driver,
          limits.receiver.session, number, if now < 0 then 0 else now),
        accepted, idempotent, if accepted then number else 0, reason, activeProfile);
    }

    method CacheAnswer(request: ProfileRequest, now: int, accepted: bool, reason: Cause)
      returns (outcome: Outcome<ProfileResult>)
      requires Valid()
      modifies this
      ensures (View(), outcome) == Cached(W(), old(View()), request, now, accepted, reason)
    {
      var answer := Answered(request, now, accepted, false, reason);
      lastRequest := Some(request);
      lastResult := Some(answer);
      return Returned(answer);
    }

    method Replay(request: ProfileRequest, now: int) returns (outcome: Outcome<ProfileResult>)
      requires Valid() && lastRequest.Some?
      modifies this
      ensures (View(), outcome) == AfterReplay(W(), old(View()), request, now)
    {
      if !SameRequest(request, lastRequest.value) {
        var answer := Answered(request, now, false, false, ProfileSeqConflict);
        return Returned(answer);
      }
      if lastResult.None? {
        return Threw;
      }
      if activeProfile.None? && lastResult.value.accepted {
        var answer := Answered(request, now, false, true, SessionProfileCleared);
        return Returned(answer);
      }
      var replay := lastResult.value;
      replay := replay.(meta := replay.meta.(sentAt := now), idempotent := true, effective := activeProfile);
      lastResult := Some(replay);
      return Returned(replay);
    }

    method ConsiderProfile(request: ProfileRequest, now: int) returns (outcome: Outcome<ProfileResult>)
      requires Valid()
      modifies this, adapter
      ensures (View(), outcome) == AfterNewProfile(W(), old(View()), request, now)
    {
      var violation := LimitViolation(limits, request.profile);
      if violation.Some? {
        outcome := CacheAnswer(request, now, false, violation.value);
        return;
      }
      var status := Ask(ReadStatus);
      if status.failed {
        return Threw;
      }
      var mockBench := limits.bench && status.mock;
      if NeedsParking(limits, activeProfile, request.profile) && !mockBench {
        var handshake := Ask(ReadHandshake);
        if handshake.failed || !handshake.parkingReady {
          outcome := CacheAnswer(request, now, false, ParkingReadyRequiredForProfileIncrease);
          return;
        }
        if handshake.vcuState != VcuStandby && handshake.vcuState != VcuDisarmed {
          outcome := CacheAnswer(request, now, false, StandbyOrDisarmedRequiredForProfileChange);
          return;
        }
      }
      outcome := ConfigureProfile(request, now);
    }

    method ConfigureProfile(request: ProfileRequest, now: int) returns (outcome: Outcome<ProfileResult>)
      requires Valid()
      modifies this, adapter
      ensures (View(), outcome) == AfterConfigure(W(), old(View()), request, now)
    {
      var current := CurrentProfile(limits, activeProfile);
      var p := request.profile;
      var decrease :=
        p.targetSpeedKph + TOLERANCE < current.targetSpeedKph || p.maxTorqueNm + TOLERANCE < current.maxTorqueNm;
      var configured := Ask(Configure(p, request.meta.number));
      var failed := configured.failed || configured.revision != request.meta.number;
      if !failed && decrease
        && !BrakeChanged(current, p) && !SteeringChanged(current, p) && !PidChanged(current, p)
        && lastEffectiveCommand.Some? && safety.state == S.ControlActive
      {
        var reapplied := lastEffectiveCommand.value;
        var profileThrottle := if limits.maxSpeedKph > 0.0 then p.targetSpeedKph / limits.maxSpeedKph else 0.0;
        reapplied := reapplied.(
          throttle := MinReal(reapplied.throttle, MinReal(limits.maxThrottle, profileThrottle)));
        var applied := Ask(ApplyControl(reapplied));
        if applied.failed {
          failed := true;
        } else {
          lastEffectiveCommand := Some(reapplied);
        }
      }
      if failed {
        var _ := Ask(SafeStop(ESTOP_STOP, SoftwareFault, ControlApplyFailed));
        ClearSessionProfile();
        outcome := CacheAnswer(request, now, false, AdapterSessionProfileApplyFailed);
        return;
      }
      activeProfile := Some(p);
      outcome := CacheAnswer(request, now, true, AsRequested);
    }

    method RequestVcuHandshake() returns (outcome: Outcome<bool>)
      requires Valid()
      modifies this, safety, adapter
      ensures (View(), outcome) == AfterHandshake(W(), old(View()))
    {
      if !started {
        return Threw;
      }
      if activeProfile.None? || safety.state == S.Estop || safety.state == S.Fault {
        return Returned(false);
      }
      var handshake := Ask(RequestHandshake);
      if handshake.failed {
        return Threw;
      }
      if !handshake.granted {
        return Returned(false);
      }
      var reset := safety.ResetToStandby();
      if !reset {
        return Returned(false);
      }
      adapterStopActive := false;
      return Returned(true);
    }

    method DisconnectVcuHandshake() returns (outcome: Outcome<bool>)
      requires Valid()
      modifies this, adapter
      ensures (View(), outcome) == AfterDisconnect(W(), old(View()))
    {
      if !started {
        return Threw;
      }
      var disconnected := Ask(DisconnectHandshake);
      if disconnected.failed {
        return Threw;
      }
      if disconnected.granted {
        adapterStopActive := true;
        ClearSessionProfile();
      }
      return Returned(disconnected.granted);
    }

    method TickControl(now: int) returns (outcome: Outcome<()>)
      requires Valid()
      modifies this, safety, adapter
      ensures (View(), outcome) == AfterTick(W(), old(View()), now)
    {
      if !started {
        return Threw;
      }
      var poll := Ask(PollFeedback);
      var observed := RefreshAdapterStop();
      if (!observed || poll.failed) && !adapterStopActive && limits.requireFeedback
        && safety.state != S.Estop && safety.state != S.Fault
      {
        safety.MarkFault();
      }
      var safe := EvaluateWatchdog(now);
      return if safe then Returned(()) else Threw;
    }

    method ResetEstop(confirmed: bool, authorizedBy: string) returns (released: bool)
      requires Valid()
      modifies this, safety, adapter
      ensures (View(), released) == AfterReset(W(), old(View()), confirmed, authorizedBy)
    {
      if safety.state != S.Estop || !confirmed || authorizedBy == "" {
        return false;
      }
      var telemetry := Ask(ReadTelemetry);
      if telemetry.failed {
        return false;
      }
      var handshake := Ask(ReadHandshake);
      if handshake.failed {
        return false;
      }
      adapterStopActive := telemetry.estop || handshake.disarming;
      if handshake.disarming {
        return false;
      }
      var stopped := Ask(
        SafeStop(ControlOutput(telemetry.gear, 0.0, 0.0, 0.0, false, false), NoSource, NoReason));
      if stopped.failed {
        adapterStopActive := true;
        return false;
      }
      var reset := safety.ResetEstop(confirmed, authorizedBy);
      if !reset {
        return false;
      }
      adapterStopActive := false;
      var _ := RefreshAdapterStop();
      return true;
    }

    method Close(source: StopSource, reason: StopReason) returns (outcome: Outcome<()>)
      requires Valid()
      modifies this, adapter
      ensures (View(), outcome) == AfterClose(W(), old(View()), source, reason)
    {
      if !started {
        return Returned(());
      }
      var stopped := Ask(SafeStop(ESTOP_STOP, source, reason));
      if stopped.failed {
        return Threw;
      }
      ClearSessionProfile();
      outcome := CloseAfterStop();
    }

    method CloseAfterStop() returns (outcome: Outcome<()>)
      requires Valid()
      modifies this`started, adapter
      ensures View() == (
        var v := old(View()).Ask(CloseAdapter); if outcome.Threw? then v else v.(started := false))
      ensures outcome == if old(View()).Reply(W()).failed then Threw else Returned(())
    {
      var closed := Ask(CloseAdapter);
      if closed.failed {
        return Threw;
      }
      started := false;
      return Returned(());
    }
  }
}
