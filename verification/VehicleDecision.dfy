/** Exactly when a received command reaches the actuators. */
module VehicleDecision {
  import opened ControlTypes
  import opened VehicleService
  import opened VehicleRuns
  import S = Safety

  /** A traction call was added. */
  ghost predicate Moved(v: Vehicle, u: Vehicle) {
    exists k :: |v.trace| <= k < |u.trace| && u.trace[k].ApplyControl?
  }

  /** The adapter can turn a session-relative brake request into pressure. */
  predicate BrakeConvertible(w: World, v: Vehicle, command: Command) {
    v.active.Some? ==>
      VehicleBrakeRequest(command.brake, v.active.value.maxBrakeBar, w.limits.maxBrakeBar).Some?
  }

  /** Everything that a command needs: the receiver, the session profile and the
      safety state allow it, a stop that the watchdog asked for did not fail, the
      adapter has just agreed, and the session's brake limit is within the
      vehicle's. */
  ghost predicate Granted(w: World, v: Vehicle, command: Command, now: int) {
    && CommandJustified(w, v, command, now) && now >= 0
    && AfterWatchdog(w, v, now).1
    && AdapterAgreed(w, |AfterWatchdog(w, v, now).0.trace|)
    && v.active.value.maxBrakeBar <= w.limits.maxBrakeBar
  }

  /** The command passed the receiver, the profile check and the degraded check. */
  predicate Admitted(w: World, v: Vehicle, command: Command, now: int) {
    var (v1, verdict) := AfterAdmission(w, v, command, now);
    && v.started && verdict.Returned? && verdict.value.accepted && v1.active.Some?
    && (v1.machine.state != S.Degraded || command.Neutral())
  }

  lemma AdmittedExactly(w: World, v: Vehicle, command: Command, now: int)
    requires w.limits.Valid() && !command.estop
    ensures Admitted(w, v, command, now) <==>
      CommandJustified(w, v, command, now) && now >= 0 && AfterWatchdog(w, v, now).1
    ensures Admitted(w, v, command, now) ==>
      var v1 := AfterAdmission(w, v, command, now).0;
      v1.active == v.active && !v1.machine.Latched() && v1.trace == AfterWatchdog(w, v, now).0.trace
  {
    WatchdogIsCalm(w, v, now);
  }

  /** Once admitted and limited, a command moves the vehicle if and only if the
      adapter agrees and the brake request can be converted. */
  lemma ForwardedExactly(w: World, v: Vehicle, command: Command, now: int, warnings: seq<Cause>)
    requires !command.estop && !v.machine.Latched()
    ensures var u := AfterForwarding(w, v, command, now, warnings).0;
      if AdapterAgreed(w, |v.trace|) && BrakeConvertible(w, v, command)
      then u.trace == v.trace + ActuationCalls(w.limits, command)
      else !Moved(v, u)
    ensures v.trace <= AfterForwarding(w, v, command, now, warnings).0.trace
  {
    var u := AfterForwarding(w, v, command, now, warnings).0;
    var v0 := v.Ask(PollFeedback);
    var v1 := AfterRefresh(w, v0).0;
    OrdinaryForwarding(w, v, command, now, warnings);
    RefreshIsCalm(w, v0);
    if AdapterAgreed(w, |v.trace|) {
      assert v1.trace == v.trace + [PollFeedback, ReadTelemetry, ReadHandshake];
      assert v1 == v0.Ask(ReadTelemetry).Ask(ReadHandshake).(stopActive := false);
    }
  }

  /** Main result: a command reaches the actuators if and only if it is granted,
      and then in its limited form, as the last of exactly these calls. */
  lemma MovesExactlyWhenGranted(w: World, v: Vehicle, command: Command, now: int)
    requires w.limits.Valid() && Inv(w, v)
    ensures var u := AfterCommand(w, v, command, now).0;
      if Granted(w, v, command, now)
      then u.trace == AfterWatchdog(w, v, now).0.trace
             + ActuationCalls(w.limits, Limited(w.limits, v.active, command))
      else !Moved(v, u)
  {
    CommandTraction(w, v, command, now);
    if !command.estop {
      AdmittedExactly(w, v, command, now);
      if Admitted(w, v, command, now) {
        AdmittedMovesExactly(w, v, command, now);
      }
    }
  }

  lemma AdmittedMovesExactly(w: World, v: Vehicle, command: Command, now: int)
    requires w.limits.Valid() && !command.estop && Admitted(w, v, command, now)
    requires v.active.Some? ==> v.active.value.Valid()
    ensures var u := AfterCommand(w, v, command, now).0;
      if Granted(w, v, command, now)
      then u.trace == AfterWatchdog(w, v, now).0.trace
             + ActuationCalls(w.limits, Limited(w.limits, v.active, command))
      else !Moved(v, u)
  {
    var (v1, verdict) := AfterAdmission(w, v, command, now);
    var limited := Limited(w.limits, v1.active, command);
    var warnings := verdict.value.warnings + LimitWarnings(w.limits, v1.active, command);
    AdmittedExactly(w, v, command, now);
    AdmittedIsForwarded(w, v, command, now);
    ForwardedExactly(w, v1, limited, now, warnings);
    AdmissionIsCalm(w, v, command, now);
    if !Granted(w, v, command, now) {
      StillNotMoved(v, v1, AfterCommand(w, v, command, now).0);
    }
  }

  lemma AdmittedIsForwarded(w: World, v: Vehicle, command: Command, now: int)
    requires !command.estop && Admitted(w, v, command, now)
    ensures var (v1, verdict) := AfterAdmission(w, v, command, now);
      AfterCommand(w, v, command, now) == AfterForwarding(
        w, v1, Limited(w.limits, v1.active, command), now,
        verdict.value.warnings + LimitWarnings(w.limits, v1.active, command))
  {
  }

  lemma StillNotMoved(v: Vehicle, mid: Vehicle, u: Vehicle)
    requires Calm(v, mid) && mid.trace <= u.trace && !Moved(mid, u)
    ensures !Moved(v, u)
  {
    assert forall k | 0 <= k < |mid.trace| :: u.trace[k] == mid.trace[k];
  }

  /** The profile check tolerates a brake limit slightly above the vehicle's, but
      the brake conversion does not: with such a profile no command ever moves the
      vehicle. */
  lemma ToleratedBrakeLimitLocksOut(w: World, v: Vehicle, command: Command, now: int)
    requires w.limits.Valid() && Inv(w, v)
    requires v.active.Some? && v.active.value.maxBrakeBar > w.limits.maxBrakeBar
    ensures !Moved(v, AfterCommand(w, v, command, now).0)
  {
    MovesExactlyWhenGranted(w, v, command, now);
  }
}
