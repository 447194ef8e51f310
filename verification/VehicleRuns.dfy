/** What every run of the vehicle control service keeps, for every adapter. */
module VehicleRuns {
  import opened ControlTypes
  import opened VehicleService
  import S = Safety
  import R = Receiver

  datatype Op =
    | StartOp
    | CommandOp(command: Command, at: int)
    | ProfileOp(request: ProfileRequest, at: int)
    | HandshakeOp
    | DisconnectOp
    | TickOp(at: int)
    | ResetOp(confirmed: bool, authorizedBy: string)
    | CloseOp(source: StopSource, reason: StopReason)
  {
    predicate Timed() {
      CommandOp? || ProfileOp? || TickOp?
    }
  }

  function Step(w: World, v: Vehicle, op: Op): Vehicle {
    match op
    case StartOp => AfterStart(w, v).0
    case CommandOp(command, at) => AfterCommand(w, v, command, at).0
    case ProfileOp(request, at) => AfterProfile(w, v, request, at).0
    case HandshakeOp => AfterHandshake(w, v).0
    case DisconnectOp => AfterDisconnect(w, v).0
    case TickOp(at) => AfterTick(w, v, at).0
    case ResetOp(confirmed, authorizedBy) => AfterReset(w, v, confirmed, authorizedBy).0
    case CloseOp(source, reason) => AfterClose(w, v, source, reason).0
  }

  function Run(w: World, ops: seq<Op>): Vehicle {
    if ops == [] then NEW_VEHICLE else Step(w, Run(w, ops[..|ops| - 1]), ops[|ops| - 1])
  }

  /** The clock never runs backwards. */
  ghost predicate Monotone(ops: seq<Op>) {
    forall i, j | 0 <= i < j < |ops| && ops[i].Timed() && ops[j].Timed() :: ops[i].at <= ops[j].at
  }

  // ---------------------------------------------------------------------
  // Calls that neither move the vehicle nor install a profile
  // ---------------------------------------------------------------------

  /** From `v` to `u` the adapter got no traction and no profile; the session
      profile and the remembered command were both kept or both dropped, and
      while they are kept the adapter was not told to clear its profile. */
  ghost predicate Calm(v: Vehicle, u: Vehicle) {
    && v.trace <= u.trace
    && (forall k | |v.trace| <= k < |u.trace| ::
          && !u.trace[k].ApplyControl? && !u.trace[k].Configure?
          && (u.active.Some? ==> !u.trace[k].ClearRuntimeProfile?))
    && (|| (u.active == v.active && u.lastEffective == v.lastEffective)
        || (u.active.None? && u.lastEffective.None?))
    && u.lastRequest == v.lastRequest
    && (u.lastResult.Some? <==> v.lastResult.Some?)
    && u.started == v.started
  }

  lemma CalmTrans(a: Vehicle, b: Vehicle, c: Vehicle)
    requires Calm(a, b) && Calm(b, c)
    ensures Calm(a, c)
  {
    forall k | |a.trace| <= k < |c.trace|
      ensures !c.trace[k].ApplyControl? && !c.trace[k].Configure?
      ensures c.active.Some? ==> !c.trace[k].ClearRuntimeProfile?
    {
      if k < |b.trace| {
        assert c.trace[k] == b.trace[k];
      }
    }
  }

  lemma RefreshIsCalm(w: World, v: Vehicle)
    ensures Calm(v, AfterRefresh(w, v).0)
    ensures AfterRefresh(w, v).0.machine == v.machine && AfterRefresh(w, v).0.cursor == v.cursor
    ensures AfterRefresh(w, v).1 && !AfterRefresh(w, v).0.stopActive ==>
      && AfterRefresh(w, v).0 == v.Ask(ReadTelemetry).Ask(ReadHandshake).(stopActive := false)
      && !v.Reply(w).failed && !v.Reply(w).estop
      && !v.Ask(ReadTelemetry).Reply(w).failed && !v.Ask(ReadTelemetry).Reply(w).disarming
  {
  }

  lemma WatchdogIsCalm(w: World, v: Vehicle, now: int)
    ensures Calm(v, AfterWatchdog(w, v, now).0)
    ensures AfterWatchdog(w, v, now).0.machine == v.machine.Tick(w.limits.safety, now)
    ensures AfterWatchdog(w, v, now).0.cursor == v.cursor
    ensures AfterWatchdog(w, v, now).0.active.Some? ==>
      v.machine.Tick(w.limits.safety, now).state !in {S.TimeoutBrake, S.Estop, S.Fault}
  {
  }

  lemma AdmissionIsCalm(w: World, v: Vehicle, command: Command, now: int)
    ensures Calm(v, AfterAdmission(w, v, command, now).0)
  {
    var cursor := v.cursor.Accept(w.limits.receiver, command, now).0;
    WatchdogIsCalm(w, v.(cursor := cursor), now);
    WatchdogIsCalm(w, v, now);
    assert Calm(v, v.(cursor := cursor));
    if command.estop {
      CalmTrans(v, v.(cursor := cursor), AfterWatchdog(w, v.(cursor := cursor), now).0);
    } else {
      var v1 := AfterWatchdog(w, v, now).0;
      CalmTrans(v, v1, v1.(cursor := v1.cursor.Accept(w.limits.receiver, command, now).0));
    }
  }

  lemma FaultStopIsCalm(
    w: World, v: Vehicle, now: int, reason: StopReason, why: Cause, warnings: seq<Cause>)
    ensures Calm(v, AfterFaultStop(w, v, now, reason, why, warnings).0)
  {
  }

  lemma LatchedStopIsCalm(
    w: World, v: Vehicle, safetyCommand: Command, now: int, command: Command, warnings: seq<Cause>)
    ensures Calm(v, AfterLatchedStop(w, v, safetyCommand, now, command, warnings).0)
  {
  }

  lemma TickIsCalm(w: World, v: Vehicle, now: int)
    ensures Calm(v, AfterTick(w, v, now).0)
  {
    if v.started {
      var v0 := v.Ask(PollFeedback);
      var (v1, observed) := AfterRefresh(w, v0);
      RefreshIsCalm(w, v0);
      CalmTrans(v, v0, v1);
      var blind := (!observed || v.Reply(w).failed) && !v1.stopActive && w.limits.requireFeedback;
      var v2 :=
        if blind && !v1.machine.Latched() then v1.(machine := v1.machine.MarkFault()) else v1;
      CalmTrans(v, v1, v2);
      WatchdogIsCalm(w, v2, now);
      CalmTrans(v, v2, AfterWatchdog(w, v2, now).0);
    }
  }

  lemma AskIsCalm(v: Vehicle, call: Call, u: Vehicle)
    requires !call.ApplyControl? && !call.Configure? && !call.ClearRuntimeProfile?
    requires u == v.Ask(call).(stopActive := u.stopActive, machine := u.machine)
    ensures Calm(v, u)
  {
  }

  lemma ResetIsCalm(w: World, v: Vehicle, confirmed: bool, authorizedBy: string)
    ensures Calm(v, AfterReset(w, v, confirmed, authorizedBy).0)
  {
    var u := AfterReset(w, v, confirmed, authorizedBy).0;
    var telemetry := v.Reply(w);
    var v1 := v.Ask(ReadTelemetry);
    var handshake := v1.Reply(w);
    var v3 := v1.Ask(ReadHandshake).(stopActive := telemetry.estop || handshake.disarming);
    var stop := SafeStop(ControlOutput(telemetry.gear, 0.0, 0.0, 0.0, false, false), NoSource, NoReason);
    if u != v && u != v1 && u != v1.Ask(ReadHandshake) && u != v3 {
      AskIsCalm(v, ReadTelemetry, v1);
      AskIsCalm(v1, ReadHandshake, v3);
      CalmTrans(v, v1, v3);
      var v5 := v3.Ask(stop).(machine := v.machine.ResetEstop(confirmed, authorizedBy), stopActive := false);
      var failed := v3.Ask(stop).(stopActive := true);
      AskIsCalm(v3, stop, failed);
      AskIsCalm(v3, stop, v5);
      CalmTrans(v, v3, failed);
      CalmTrans(v, v3, v5);
      RefreshIsCalm(w, v5);
      CalmTrans(v, v5, AfterRefresh(w, v5).0);
    }
  }

  // ---------------------------------------------------------------------
  // When a command becomes traction
  // ---------------------------------------------------------------------

  /** The calls that end in traction, in their exact order. */
  function ActuationCalls(limits: Limits, command: Command): seq<Call> {
    [PollFeedback, ReadTelemetry, ReadHandshake]
    + (if limits.requireFeedback then [FeedbackReady] else [])
    + [ApplyControl(command)]
  }

  /** The adapter, asked from position `base` on, reported no stop of its own and,
      where the vehicle requires it, a working and ready feedback. */
  predicate AdapterAgreed(w: World, base: nat) {
    && !w.answers(base + 1).failed && !w.answers(base + 1).estop
    && !w.answers(base + 2).failed && !w.answers(base + 2).disarming
    && (w.limits.requireFeedback ==>
          !w.answers(base).failed && !w.answers(base + 3).failed && w.answers(base + 3).granted)
  }

  /** Everything that must hold in state `v` for a command to be applied. */
  ghost predicate CommandJustified(w: World, v: Vehicle, command: Command, now: int) {
    var machine := v.machine.Tick(w.limits.safety, now);
    && v.started && !command.estop
    // identity, order and age
    && command.Valid()
    && command.meta.vehicle == w.limits.receiver.vehicle
    && command.meta.driver == w.limits.receiver.driver
    && command.meta.session == w.limits.receiver.session
    && command.token == w.limits.receiver.token
    && (v.cursor.lastNumber.Some? ==> v.cursor.lastNumber.value < command.meta.number)
    && -w.limits.receiver.maxGapMs <= now - command.meta.sentAt <= w.limits.receiver.maxGapMs
    && (v.cursor.lastReceive.Some? ==>
          0 <= now - v.cursor.lastReceive.value <= w.limits.receiver.maxGapMs)
    // authority and safety state
    && v.active.Some?
    && machine.state !in {S.Estop, S.Fault, S.TimeoutBrake}
    && (machine.state == S.Degraded ==> command.Neutral())
  }

  /** `u` is `mid` after exactly the actuation calls for `command`. */
  ghost predicate Actuated(w: World, mid: Vehicle, command: Command, u: Vehicle) {
    && u.trace == mid.trace + ActuationCalls(w.limits, command)
    && AdapterAgreed(w, |mid.trace|)
    && u.active == mid.active
    && (u.lastEffective == mid.lastEffective || u.lastEffective == Some(command))
    && u.lastRequest == mid.lastRequest && u.lastResult == mid.lastResult && u.started == mid.started
  }

  /** `u` is `v` after traction with `command`: the watchdog may have stopped the
      vehicle first, then come the actuation calls. */
  ghost predicate Traction(w: World, v: Vehicle, command: Command, u: Vehicle) {
    exists mid: Vehicle :: Calm(v, mid) && mid.active == v.active && Actuated(w, mid, command, u)
  }

  /** A command either moves nothing, or everything agreed and its limited form
      was the last thing the adapter was told. */
  lemma CommandTraction(w: World, v: Vehicle, command: Command, now: int)
    ensures var u := AfterCommand(w, v, command, now).0;
      || Calm(v, u)
      || (CommandJustified(w, v, command, now) && Traction(w, v, Limited(w.limits, v.active, command), u))
  {
    if v.started {
      var (v1, verdict) := AfterAdmission(w, v, command, now);
      AdmissionIsCalm(w, v, command, now);
      if verdict.Threw? || !verdict.value.accepted {
      } else if command.estop {
        EstopForwarding(w, v, command, now);
      } else if v1.active.None? {
        CalmTrans(v, v1, v1.Ask(SafeStop(SOFTWARE_STOP, SoftwareFault, SessionProfileRequired)));
      } else if v1.machine.state != S.Degraded || command.Neutral() {
        AdmittedCommand(w, v, command, now);
        var limited := Limited(w.limits, v1.active, command);
        var warnings := verdict.value.warnings + LimitWarnings(w.limits, v1.active, command);
        OrdinaryForwarding(w, v1, limited, now, warnings);
        var u := AfterForwarding(w, v1, limited, now, warnings).0;
        if Calm(v1, u) {
          CalmTrans(v, v1, u);
        }
      }
    }
  }

  lemma EstopForwarding(w: World, v: Vehicle, command: Command, now: int)
    requires v.started && command.estop
    ensures Calm(v, AfterCommand(w, v, command, now).0)
  {
    var (v1, verdict) := AfterAdmission(w, v, command, now);
    AdmissionIsCalm(w, v, command, now);
    if verdict.Returned? && verdict.value.accepted {
      var limited := Limited(w.limits, v1.active, command);
      var warnings := verdict.value.warnings + LimitWarnings(w.limits, v1.active, command);
      var v2 := AfterRefresh(w, v1).0;
      RefreshIsCalm(w, v1);
      CalmTrans(v, v1, v2);
      LatchedStopIsCalm(w, v2, limited, now, limited, warnings);
      CalmTrans(v, v2, AfterLatchedStop(w, v2, limited, now, limited, warnings).0);
    }
  }

  lemma AdmittedCommand(w: World, v: Vehicle, command: Command, now: int)
    requires v.started && !command.estop
    requires var (v1, verdict) := AfterAdmission(w, v, command, now);
      && verdict.Returned? && verdict.value.accepted && v1.active.Some?
      && (v1.machine.state != S.Degraded || command.Neutral())
    ensures CommandJustified(w, v, command, now)
    ensures var v1 := AfterAdmission(w, v, command, now).0;
      v1.active == v.active && v1.lastEffective == v.lastEffective && v1.lastResult == v.lastResult
      && !v1.machine.Latched()
  {
    WatchdogIsCalm(w, v, now);
  }

  lemma OrdinaryForwarding(w: World, v: Vehicle, command: Command, now: int, warnings: seq<Cause>)
    requires !command.estop && !v.machine.Latched()
    ensures var u := AfterForwarding(w, v, command, now, warnings).0;
      Calm(v, u) || Actuated(w, v, command, u)
  {
    var v0 := v.Ask(PollFeedback);
    var (v1, observed) := AfterRefresh(w, v0);
    RefreshIsCalm(w, v0);
    CalmTrans(v, v0, v1);
    var u := AfterForwarding(w, v, command, now, warnings).0;
    if v1.stopActive {
    } else if !observed {
      FaultStopIsCalm(
        w, v1, now, AdapterSafetyStatusUnavailable, StopStatusUnreadable, warnings);
      CalmTrans(v, v1, u);
    } else if v.Reply(w).failed && w.limits.requireFeedback {
      FaultStopIsCalm(w, v1, now, CanFeedbackMissing, CanFeedbackPollFailed, warnings);
      CalmTrans(v, v1, u);
    } else {
      ReadyForwarding(w, v, command, now, warnings);
    }
  }

  lemma ReadyForwarding(w: World, v: Vehicle, command: Command, now: int, warnings: seq<Cause>)
    requires !command.estop && !v.machine.Latched()
    requires var (v1, observed) := AfterRefresh(w, v.Ask(PollFeedback));
      !v1.stopActive && observed && !(v.Reply(w).failed && w.limits.requireFeedback)
    ensures var u := AfterForwarding(w, v, command, now, warnings).0;
      Calm(v, u) || Actuated(w, v, command, u)
  {
    var v0 := v.Ask(PollFeedback);
    var v1 := AfterRefresh(w, v0).0;
    RefreshIsCalm(w, v0);
    CalmTrans(v, v0, v1);
    assert v1.trace == v.trace + [PollFeedback, ReadTelemetry, ReadHandshake];
    if w.limits.requireFeedback {
      var v2 := v1.Ask(FeedbackReady);
      CalmTrans(v, v1, v2);
      if v1.Reply(w).failed {
      } else if !v1.Reply(w).granted {
        CalmTrans(v, v2, AfterForwarding(w, v, command, now, warnings).0);
      } else {
        ActuationAddsOneCall(w, v2, command, now, warnings);
      }
    } else {
      ActuationAddsOneCall(w, v1, command, now, warnings);
    }
  }

  lemma ActuationAddsOneCall(w: World, v: Vehicle, command: Command, now: int, warnings: seq<Cause>)
    requires !v.machine.Latched()
    ensures var u := AfterActuation(w, v, command, now, warnings).0;
      || u == v
      || (&& u.trace == v.trace + [ApplyControl(command)]
          && u.active == v.active
          && (u.lastEffective == v.lastEffective || u.lastEffective == Some(command))
          && u.lastRequest == v.lastRequest && u.lastResult == v.lastResult && u.started == v.started)
  {
  }

  // ---------------------------------------------------------------------
  // What a profile request does to the adapter
  // ---------------------------------------------------------------------

  /** A request newer than every one remembered so far. */
  predicate Newer(v: Vehicle, request: ProfileRequest) {
    v.lastRequest.Some? ==> v.lastRequest.value.meta.number < request.meta.number
  }

  /** The request was answered without touching the installed profile. */
  ghost predicate ProfileAnswered(v: Vehicle, request: ProfileRequest, u: Vehicle) {
    && Calm(v, u.(lastRequest := v.lastRequest, lastResult := v.lastResult))
    && u.active == v.active && u.lastEffective == v.lastEffective
    && (|| (u.lastRequest == v.lastRequest && (u.lastResult.Some? <==> v.lastResult.Some?))
        || (u.lastRequest == Some(request) && u.lastResult.Some? && Newer(v, request)))
  }

  /** The calls that install a profile: the configuration, then, under the new
      limit, the last command again. */
  function InstallCalls(limits: Limits, v: Vehicle, request: ProfileRequest, reapply: bool): seq<Call>
    requires reapply ==> v.lastEffective.Some?
  {
    [Configure(request.profile, request.meta.number)]
    + (if reapply then [ApplyControl(Reapplied(limits, v.lastEffective.value, request.profile))] else [])
  }

  /** What the vehicle must have checked before the adapter hears of a profile. */
  predicate ProfileAdmitted(w: World, v: Vehicle, request: ProfileRequest) {
    && Newer(v, request)
    && request.profile.Valid()
    && LimitViolation(w.limits, request.profile).None?
    && request.token == w.limits.receiver.token
    && request.meta.session == w.limits.receiver.session
  }

  ghost predicate ProfileInstalledFrom(
    w: World, v: Vehicle, mid: Vehicle, request: ProfileRequest, reapply: bool, u: Vehicle)
  {
    && (reapply ==> NeedsReapply(w.limits, v, request.profile))
    && Calm(v, mid) && mid.active == v.active && mid.lastEffective == v.lastEffective
    && !w.answers(|mid.trace|).failed && w.answers(|mid.trace|).revision == request.meta.number
    && u.trace == mid.trace + InstallCalls(w.limits, v, request, reapply)
    && u.active == Some(request.profile)
    && u.lastEffective ==
         (if reapply then Some(Reapplied(w.limits, v.lastEffective.value, request.profile)) else v.lastEffective)
  }

  ghost predicate ProfileFailedFrom(
    w: World, v: Vehicle, mid: Vehicle, request: ProfileRequest, reapply: bool, u: Vehicle)
  {
    && (reapply ==>
          && NeedsReapply(w.limits, v, request.profile)
          && !w.answers(|mid.trace|).failed && w.answers(|mid.trace|).revision == request.meta.number)
    && Calm(v, mid)
    && u.trace == mid.trace + InstallCalls(w.limits, v, request, reapply)
         + [SafeStop(ESTOP_STOP, SoftwareFault, ControlApplyFailed), ClearRuntimeProfile]
    && u.active.None? && u.lastEffective.None?
  }

  /** The adapter was given the profile, and either the profile is now active or
      the vehicle was stopped and no profile is active. */
  ghost predicate ProfileTried(w: World, v: Vehicle, request: ProfileRequest, u: Vehicle) {
    && ProfileAdmitted(w, v, request)
    && u.lastRequest == Some(request) && u.lastResult.Some? && u.started == v.started
    && exists mid: Vehicle, reapply: bool ::
         || ProfileInstalledFrom(w, v, mid, request, reapply, u)
         || ProfileFailedFrom(w, v, mid, request, reapply, u)
  }

  lemma ProfileOutcome(w: World, v: Vehicle, request: ProfileRequest, now: int)
    ensures var u := AfterProfile(w, v, request, now).0;
      u == v || (v.started && (ProfileAnswered(v, request, u) || ProfileTried(w, v, request, u)))
  {
    if v.started && now >= 0 && ProfileRefusal(w, v, request, now).None? {
      if v.lastRequest.Some? && request.meta.number == v.lastRequest.value.meta.number {
      } else if FreshnessRefusal(request, now).None? {
        NewProfileOutcome(w, v, request, now);
      }
    }
  }

  lemma NewProfileOutcome(w: World, v: Vehicle, request: ProfileRequest, now: int)
    requires Newer(v, request) && request.profile.Valid()
    requires request.token == w.limits.receiver.token
    requires request.meta.session == w.limits.receiver.session
    ensures var u := AfterNewProfile(w, v, request, now).0;
      ProfileAnswered(v, request, u) || ProfileTried(w, v, request, u)
  {
    var u := AfterNewProfile(w, v, request, now).0;
    var v1 := v.Ask(ReadStatus);
    var v2 := v1.Ask(ReadHandshake);
    assert Calm(v, v1) && Calm(v, v2);
    if LimitViolation(w.limits, request.profile).Some? || v.Reply(w).failed {
    } else if NeedsParking(w.limits, v.active, request.profile) && !(w.limits.bench && v.Reply(w).mock) {
      var handshake := v1.Reply(w);
      if !(handshake.failed || !handshake.parkingReady)
        && (handshake.vcuState == VcuStandby || handshake.vcuState == VcuDisarmed)
      {
        ConfigureOutcome(w, v, v2, request, now);
      }
    } else {
      ConfigureOutcome(w, v, v1, request, now);
    }
  }

  lemma ConfigureOutcome(w: World, v: Vehicle, mid: Vehicle, request: ProfileRequest, now: int)
    requires ProfileAdmitted(w, v, request)
    requires Calm(v, mid) && mid == v.(trace := mid.trace)
    ensures ProfileTried(w, v, request, AfterConfigure(w, mid, request, now).0)
  {
    var u := AfterConfigure(w, mid, request, now).0;
    var p := request.profile;
    var answer := mid.Reply(w);
    var v1 := mid.Ask(Configure(p, request.meta.number));
    if answer.failed || answer.revision != request.meta.number {
      assert u.trace == mid.trace + InstallCalls(w.limits, v, request, false)
        + [SafeStop(ESTOP_STOP, SoftwareFault, ControlApplyFailed), ClearRuntimeProfile];
      assert ProfileFailedFrom(w, v, mid, request, false, u);
    } else if !NeedsReapply(w.limits, mid, p) {
      assert u.trace == mid.trace + InstallCalls(w.limits, v, request, false);
      assert ProfileInstalledFrom(w, v, mid, request, false, u);
    } else if v1.Reply(w).failed {
      assert u.trace == mid.trace + InstallCalls(w.limits, v, request, true)
        + [SafeStop(ESTOP_STOP, SoftwareFault, ControlApplyFailed), ClearRuntimeProfile];
      assert ProfileFailedFrom(w, v, mid, request, true, u);
    } else {
      assert u.trace == mid.trace + InstallCalls(w.limits, v, request, true);
      assert ProfileInstalledFrom(w, v, mid, request, true, u);
    }
  }

  // ---------------------------------------------------------------------
  // The invariant of every run
  // ---------------------------------------------------------------------

  ghost predicate InstalledAt(w: World, trace: seq<Call>, k: nat, p: Profile)
    requires k < |trace|
  {
    && trace[k].Configure? && trace[k].profile == p
    && !w.answers(k).failed && w.answers(k).revision == trace[k].revision
    && forall j | k < j < |trace| :: !trace[j].Configure? && !trace[j].ClearRuntimeProfile?
  }

  /** `p` is what the adapter was last configured with, successfully, and it was
      not told to clear it since. */
  ghost predicate LastInstalled(w: World, trace: seq<Call>, p: Profile) {
    exists k: nat | k < |trace| :: InstalledAt(w, trace, k, p)
  }

  ghost predicate RevisionsIncrease(trace: seq<Call>) {
    forall i, j | 0 <= i < j < |trace| && trace[i].Configure? && trace[j].Configure? ::
      trace[i].revision < trace[j].revision
  }

  ghost predicate RevisionsRemembered(trace: seq<Call>, last: Option<ProfileRequest>) {
    forall i | 0 <= i < |trace| && trace[i].Configure? ::
      last.Some? && trace[i].revision <= last.value.meta.number
  }

  /** A command of this session, with its fields in range. */
  predicate Ours(limits: Limits, c: Command) {
    && c.Valid() && !c.estop
    && c.meta.vehicle == limits.receiver.vehicle && c.meta.driver == limits.receiver.driver
    && c.meta.session == limits.receiver.session && c.token == limits.receiver.token
  }

  ghost predicate Inv(w: World, v: Vehicle) {
    && (!v.started ==> v.active.None?)
    && (v.lastRequest.Some? <==> v.lastResult.Some?)
    && (v.active.Some? ==>
          && v.active.value.Valid()
          && LimitViolation(w.limits, v.active.value).None?
          && LastInstalled(w, v.trace, v.active.value))
    && (v.lastEffective.Some? ==> v.active.Some? && Ours(w.limits, v.lastEffective.value))
    && RevisionsIncrease(v.trace)
    && RevisionsRemembered(v.trace, v.lastRequest)
  }

  lemma CalmKeepsInv(w: World, v: Vehicle, u: Vehicle)
    requires Inv(w, v) && Calm(v, u)
    ensures Inv(w, u)
  {
    assert forall i | 0 <= i < |v.trace| :: u.trace[i] == v.trace[i];
    if u.active.Some? {
      var k: nat :| k < |v.trace| && InstalledAt(w, v.trace, k, v.active.value);
      assert InstalledAt(w, u.trace, k, u.active.value);
    }
  }

  /** Later calls that neither configure nor clear keep the invariant. */
  lemma ExtendKeepsInstalled(w: World, trace: seq<Call>, more: seq<Call>, p: Profile)
    requires LastInstalled(w, trace, p)
    requires forall c | c in more :: !c.Configure? && !c.ClearRuntimeProfile?
    ensures LastInstalled(w, trace + more, p)
  {
    var k: nat :| k < |trace| && InstalledAt(w, trace, k, p);
    assert InstalledAt(w, trace + more, k, p);
  }

  lemma LimitedIsOurs(w: World, v: Vehicle, command: Command, now: int)
    requires w.limits.Valid() && Inv(w, v)
    requires CommandJustified(w, v, command, now)
    ensures Ours(w.limits, Limited(w.limits, v.active, command))
    ensures Limited(w.limits, v.active, command).throttle <= SessionThrottle(w.limits, v.active.value)
  {
    SessionThrottleNonNegative(w.limits, v.active.value);
  }

  lemma SessionThrottleNonNegative(limits: Limits, p: Profile)
    requires limits.Valid() && p.Valid()
    ensures SessionThrottle(limits, p) >= 0.0
    ensures SessionThrottle(limits, p) * limits.maxSpeedKph <= p.targetSpeedKph
  {
    if limits.maxSpeedKph > 0.0 {
      var quotient := p.targetSpeedKph / limits.maxSpeedKph;
      assert quotient * limits.maxSpeedKph == p.targetSpeedKph;
    }
  }

  lemma TractionKeepsInv(w: World, v: Vehicle, command: Command, now: int, u: Vehicle)
    requires w.limits.Valid() && Inv(w, v)
    requires CommandJustified(w, v, command, now)
    requires Traction(w, v, Limited(w.limits, v.active, command), u)
    ensures Inv(w, u)
  {
    var limited := Limited(w.limits, v.active, command);
    var mid :| Calm(v, mid) && mid.active == v.active && Actuated(w, mid, limited, u);
    CalmKeepsInv(w, v, mid);
    LimitedIsOurs(w, v, command, now);
    var calls := ActuationCalls(w.limits, limited);
    ExtendKeepsInstalled(w, mid.trace, calls, v.active.value);
    assert forall i | |mid.trace| <= i < |u.trace| :: u.trace[i] in calls;
    assert forall i | 0 <= i < |mid.trace| :: u.trace[i] == mid.trace[i];
  }

  /** A configuration newer than every remembered one keeps the revisions in order. */
  lemma OneMoreRevision(trace: seq<Call>, last: Option<ProfileRequest>, request: ProfileRequest, more: seq<Call>)
    requires RevisionsIncrease(trace) && RevisionsRemembered(trace, last)
    requires last.Some? ==> last.value.meta.number < request.meta.number
    requires more != [] && more[0] == Configure(request.profile, request.meta.number)
    requires forall i | 0 < i < |more| :: !more[i].Configure?
    ensures RevisionsIncrease(trace + more) && RevisionsRemembered(trace + more, Some(request))
  {
  }

  lemma InstalledKeepsInv(w: World, v: Vehicle, mid: Vehicle, request: ProfileRequest, reapply: bool, u: Vehicle)
    requires w.limits.Valid() && Inv(w, v) && v.started && ProfileAdmitted(w, v, request)
    requires ProfileInstalledFrom(w, v, mid, request, reapply, u)
    requires u.lastRequest == Some(request) && u.lastResult.Some? && u.started == v.started
    ensures Inv(w, u)
  {
    CalmKeepsInv(w, v, mid);
    OneMoreRevision(mid.trace, v.lastRequest, request, InstallCalls(w.limits, v, request, reapply));
    assert InstalledAt(w, u.trace, |mid.trace|, request.profile);
    SessionThrottleNonNegative(w.limits, request.profile);
  }

  lemma FailedKeepsInv(w: World, v: Vehicle, mid: Vehicle, request: ProfileRequest, reapply: bool, u: Vehicle)
    requires Inv(w, v) && ProfileAdmitted(w, v, request)
    requires ProfileFailedFrom(w, v, mid, request, reapply, u)
    requires u.lastRequest == Some(request) && u.lastResult.Some? && u.started == v.started
    ensures Inv(w, u)
  {
    CalmKeepsInv(w, v, mid);
    var more := InstallCalls(w.limits, v, request, reapply)
      + [SafeStop(ESTOP_STOP, SoftwareFault, ControlApplyFailed), ClearRuntimeProfile];
    OneMoreRevision(mid.trace, v.lastRequest, request, more);
    assert u.trace == mid.trace + more;
  }

  lemma CommandKeepsInv(w: World, v: Vehicle, command: Command, now: int)
    requires w.limits.Valid() && Inv(w, v)
    ensures Inv(w, AfterCommand(w, v, command, now).0)
    ensures v.trace <= AfterCommand(w, v, command, now).0.trace
  {
    var u := AfterCommand(w, v, command, now).0;
    CommandTraction(w, v, command, now);
    if Calm(v, u) {
      CalmKeepsInv(w, v, u);
    } else {
      TractionKeepsInv(w, v, command, now, u);
    }
  }

  lemma ProfileKeepsInv(w: World, v: Vehicle, request: ProfileRequest, now: int)
    requires w.limits.Valid() && Inv(w, v)
    ensures Inv(w, AfterProfile(w, v, request, now).0)
    ensures v.trace <= AfterProfile(w, v, request, now).0.trace
  {
    var u := AfterProfile(w, v, request, now).0;
    ProfileOutcome(w, v, request, now);
    if u == v {
    } else if ProfileAnswered(v, request, u) {
      CalmKeepsInv(w, v, u.(lastRequest := v.lastRequest, lastResult := v.lastResult));
    } else {
      var mid, reapply :|
        || ProfileInstalledFrom(w, v, mid, request, reapply, u)
        || ProfileFailedFrom(w, v, mid, request, reapply, u);
      if ProfileInstalledFrom(w, v, mid, request, reapply, u) {
        InstalledKeepsInv(w, v, mid, request, reapply, u);
      } else {
        FailedKeepsInv(w, v, mid, request, reapply, u);
      }
    }
  }

  lemma StartKeepsInv(w: World, v: Vehicle)
    requires Inv(w, v)
    ensures Inv(w, AfterStart(w, v).0)
    ensures v.trace <= AfterStart(w, v).0.trace
  {
    assert forall i | 0 <= i < |v.trace| :: AfterStart(w, v).0.trace[i] == v.trace[i];
  }

  /** The remaining operations never touch the actuators or the profile slot. */
  lemma OtherStepsAreCalm(w: World, v: Vehicle, op: Op)
    requires op.HandshakeOp? || op.DisconnectOp? || op.TickOp? || op.ResetOp?
    ensures Calm(v, Step(w, v, op))
  {
    match op
    case HandshakeOp =>
    case DisconnectOp =>
    case TickOp(at) => TickIsCalm(w, v, at);
    case ResetOp(confirmed, authorizedBy) => ResetIsCalm(w, v, confirmed, authorizedBy);
  }

  lemma StepKeepsInv(w: World, v: Vehicle, op: Op)
    requires w.limits.Valid() && Inv(w, v)
    ensures Inv(w, Step(w, v, op))
    ensures v.trace <= Step(w, v, op).trace
  {
    match op
    case StartOp => StartKeepsInv(w, v);
    case CommandOp(command, at) => CommandKeepsInv(w, v, command, at);
    case ProfileOp(request, at) => ProfileKeepsInv(w, v, request, at);
    case CloseOp(source, reason) =>
      CloseIsCalm(w, v, source, reason);
      CalmKeepsInv(w, v, AfterClose(w, v, source, reason).0.(started := v.started));
    case _ =>
      OtherStepsAreCalm(w, v, op);
      CalmKeepsInv(w, v, Step(w, v, op));
  }

  lemma CloseIsCalm(w: World, v: Vehicle, source: StopSource, reason: StopReason)
    ensures var u := AfterClose(w, v, source, reason).0;
      Calm(v, u.(started := v.started)) && (!u.started ==> u.active.None? || u == v)
  {
  }

  /** Main result: the invariant holds after every run. */
  lemma {:induction false} InvHolds(w: World, ops: seq<Op>)
    requires w.limits.Valid()
    ensures Inv(w, Run(w, ops))
  {
    if ops != [] {
      InvHolds(w, ops[..|ops| - 1]);
      StepKeepsInv(w, Run(w, ops[..|ops| - 1]), ops[|ops| - 1]);
    }
  }

  // ---------------------------------------------------------------------
  // Traction over whole runs
  // ---------------------------------------------------------------------

  /** The adapter's own speed setpoint for `command` stays within the profile. */
  predicate SetpointWithin(limits: Limits, command: Command, p: Profile) {
    var setpoint := TargetSpeedMps(command, limits.maxSpeedKph / 3.6);
    setpoint.Some? && setpoint.value <= p.targetSpeedKph / 3.6
  }

  lemma SetpointBound(limits: Limits, command: Command, p: Profile)
    requires limits.Valid() && p.Valid() && command.Valid()
    requires command.throttle <= SessionThrottle(limits, p)
    ensures SetpointWithin(limits, command, p)
  {
    SessionThrottleNonNegative(limits, p);
    var kph := command.throttle * limits.maxSpeedKph;
    assert kph <= SessionThrottle(limits, p) * limits.maxSpeedKph;
    assert kph / 3.6 <= p.targetSpeedKph / 3.6;
    assert command.throttle * (limits.maxSpeedKph / 3.6) == kph / 3.6;
  }

  /** Position `k` of `trace` closes the actuation of `op`'s command, which every
      check let through. */
  ghost predicate AppliedByCommand(w: World, v: Vehicle, op: Op, trace: seq<Call>, k: nat) {
    && op.CommandOp?
    && CommandJustified(w, v, op.command, op.at)
    && var limited := Limited(w.limits, v.active, op.command);
       var calls := ActuationCalls(w.limits, limited);
       && |calls| <= k + 1 <= |trace|
       && trace[k + 1 - |calls|..k + 1] == calls
       && AdapterAgreed(w, k + 1 - |calls|)
       && limited.throttle <= op.command.throttle && limited.throttle <= w.limits.maxThrottle
       && SetpointWithin(w.limits, limited, v.active.value)
  }

  /** Position `k` of `trace` applies the last command again, right after the
      adapter confirmed a profile that lowers a limit. */
  ghost predicate AppliedByProfile(w: World, v: Vehicle, op: Op, trace: seq<Call>, k: nat) {
    && op.ProfileOp?
    && ProfileAdmitted(w, v, op.request)
    && NeedsReapply(w.limits, v, op.request.profile)
    && Ours(w.limits, v.lastEffective.value)
    && var command := Reapplied(w.limits, v.lastEffective.value, op.request.profile);
       && 0 < k < |trace|
       && trace[k] == ApplyControl(command)
       && trace[k - 1] == Configure(op.request.profile, op.request.meta.number)
       && !w.answers(k - 1).failed && w.answers(k - 1).revision == op.request.meta.number
       && SetpointWithin(w.limits, command, op.request.profile)
  }

  /** In an actuation the traction call is the last one. */
  lemma ActuationEndsInTraction(w: World, v: Vehicle, mid: Vehicle, command: Command, u: Vehicle, k: nat)
    requires Calm(v, mid) && Actuated(w, mid, command, u)
    requires |v.trace| <= k < |u.trace| && u.trace[k].ApplyControl?
    ensures var calls := ActuationCalls(w.limits, command);
      && |calls| <= k + 1 == |u.trace|
      && u.trace[k + 1 - |calls|..k + 1] == calls
      && k + 1 - |calls| == |mid.trace|
  {
    var calls := ActuationCalls(w.limits, command);
    assert forall i | |v.trace| <= i < |mid.trace| :: u.trace[i] == mid.trace[i];
    assert u.trace[k] == calls[k - |mid.trace|];
  }

  lemma CommandApplies(w: World, v: Vehicle, command: Command, now: int, k: nat)
    requires w.limits.Valid() && Inv(w, v)
    requires var trace := AfterCommand(w, v, command, now).0.trace;
      |v.trace| <= k < |trace| && trace[k].ApplyControl?
    ensures AppliedByCommand(w, v, CommandOp(command, now), AfterCommand(w, v, command, now).0.trace, k)
  {
    var u := AfterCommand(w, v, command, now).0;
    var limited := Limited(w.limits, v.active, command);
    CommandTraction(w, v, command, now);
    assert !Calm(v, u);
    LimitedIsOurs(w, v, command, now);
    SetpointBound(w.limits, limited, v.active.value);
    var mid :| Calm(v, mid) && mid.active == v.active && Actuated(w, mid, limited, u);
    ActuationEndsInTraction(w, v, mid, limited, u, k);
  }

  /** The command applied at `k` is the received one within the vehicle's limits. */
  lemma AppliedCommand(w: World, v: Vehicle, op: Op, trace: seq<Call>, k: nat)
    requires AppliedByCommand(w, v, op, trace, k)
    ensures trace[k] == ApplyControl(Limited(w.limits, v.active, op.command))
    ensures trace[k].command.throttle <= op.command.throttle && trace[k].command.gear == op.command.gear
    ensures !op.command.estop && op.at - op.command.meta.sentAt <= w.limits.receiver.maxGapMs
  {
    var calls := ActuationCalls(w.limits, Limited(w.limits, v.active, op.command));
    assert trace[k] == trace[k + 1 - |calls|..k + 1][|calls| - 1];
  }

  /** In a profile step the traction call directly follows the configuration. */
  lemma InstallAppliesLast(
    w: World, v: Vehicle, mid: Vehicle, request: ProfileRequest, reapply: bool, u: Vehicle, k: nat)
    requires ProfileInstalledFrom(w, v, mid, request, reapply, u) || ProfileFailedFrom(w, v, mid, request, reapply, u)
    requires |v.trace| <= k < |u.trace| && u.trace[k].ApplyControl?
    ensures reapply && k == |mid.trace| + 1
    ensures u.trace[k - 1] == Configure(request.profile, request.meta.number)
    ensures u.trace[k] == ApplyControl(Reapplied(w.limits, v.lastEffective.value, request.profile))
  {
    assert forall i | |v.trace| <= i < |mid.trace| :: u.trace[i] == mid.trace[i];
    assert u.trace[|mid.trace|] == Configure(request.profile, request.meta.number);
    var calls := InstallCalls(w.limits, v, request, reapply);
    assert forall i | 0 <= i < |calls| :: u.trace[|mid.trace| + i] == calls[i];
  }

  lemma ProfileApplies(w: World, v: Vehicle, request: ProfileRequest, now: int, k: nat)
    requires w.limits.Valid() && Inv(w, v)
    requires var trace := AfterProfile(w, v, request, now).0.trace;
      |v.trace| <= k < |trace| && trace[k].ApplyControl?
    ensures AppliedByProfile(w, v, ProfileOp(request, now), AfterProfile(w, v, request, now).0.trace, k)
  {
    var u := AfterProfile(w, v, request, now).0;
    ProfileOutcome(w, v, request, now);
    assert !ProfileAnswered(v, request, u);
    var mid, reapply :|
      || ProfileInstalledFrom(w, v, mid, request, reapply, u)
      || ProfileFailedFrom(w, v, mid, request, reapply, u);
    InstallAppliesLast(w, v, mid, request, reapply, u, k);
    SessionThrottleNonNegative(w.limits, request.profile);
    SetpointBound(w.limits, Reapplied(w.limits, v.lastEffective.value, request.profile), request.profile);
  }

  lemma StepApplies(w: World, v: Vehicle, op: Op, k: nat)
    requires w.limits.Valid() && Inv(w, v)
    requires var trace := Step(w, v, op).trace; |v.trace| <= k < |trace| && trace[k].ApplyControl?
    ensures
      || AppliedByCommand(w, v, op, Step(w, v, op).trace, k)
      || AppliedByProfile(w, v, op, Step(w, v, op).trace, k)
  {
    match op
    case CommandOp(command, at) => CommandApplies(w, v, command, at, k);
    case ProfileOp(request, at) => ProfileApplies(w, v, request, at, k);
    case StartOp =>
    case CloseOp(source, reason) => CloseIsCalm(w, v, source, reason);
    case _ => OtherStepsAreCalm(w, v, op);
  }

  /** Position `k` of the run's trace was appended by its i-th operation, which
      had every reason to. */
  ghost predicate TractionJustified(w: World, ops: seq<Op>, i: nat, k: nat) {
    && i < |ops|
    && |Run(w, ops[..i]).trace| <= k < |Run(w, ops[..i + 1]).trace|
    && (|| AppliedByCommand(w, Run(w, ops[..i]), ops[i], Run(w, ops[..i + 1]).trace, k)
        || AppliedByProfile(w, Run(w, ops[..i]), ops[i], Run(w, ops[..i + 1]).trace, k))
  }

  lemma JustifiedInLongerRun(w: World, ops: seq<Op>, n: nat, i: nat, k: nat)
    requires n <= |ops| && TractionJustified(w, ops[..n], i, k)
    ensures TractionJustified(w, ops, i, k)
  {
    assert ops[..n][..i] == ops[..i] && ops[..n][..i + 1] == ops[..i + 1];
  }

  /** Main result: in every run and for every adapter behaviour, each traction call
      comes from a received command that met every condition at that moment, or
      re-sends the last command under a lower limit the adapter has just
      confirmed; the resulting speed setpoint is within the profile concerned. */
  lemma {:induction false} EveryTractionIsJustified(w: World, ops: seq<Op>, k: nat)
    requires w.limits.Valid()
    requires k < |Run(w, ops).trace| && Run(w, ops).trace[k].ApplyControl?
    ensures exists i: nat :: TractionJustified(w, ops, i, k)
  {
    var n := |ops| - 1;
    var v := Run(w, ops[..n]);
    InvHolds(w, ops[..n]);
    StepKeepsInv(w, v, ops[n]);
    if k < |v.trace| {
      assert v.trace[k] == Run(w, ops).trace[k];
      EveryTractionIsJustified(w, ops[..n], k);
      var i: nat :| TractionJustified(w, ops[..n], i, k);
      JustifiedInLongerRun(w, ops, n, i, k);
    } else {
      StepApplies(w, v, ops[n], k);
      assert ops[..n + 1] == ops;
      assert TractionJustified(w, ops, n, k);
    }
  }

  // ---------------------------------------------------------------------
  // Profile revisions over whole runs
  // ---------------------------------------------------------------------

  /** Main result: over a whole run the revisions handed to the adapter strictly
      increase; while a session profile is active it is the adapter's last
      successful configuration, not cleared since; and a remembered command means
      an active profile. */
  lemma ProfilesAgreeWithAdapter(w: World, ops: seq<Op>)
    requires w.limits.Valid()
    ensures var v := Run(w, ops);
      && RevisionsIncrease(v.trace)
      && (v.active.Some? ==> LastInstalled(w, v.trace, v.active.value))
      && (v.lastEffective.Some? ==> v.active.Some?)
  {
    InvHolds(w, ops);
  }

  /** An identical repetition of the last request reaches no adapter call at all
      and leaves the safety state alone. */
  lemma ReplayNeverReconfigures(w: World, v: Vehicle, request: ProfileRequest, now: int)
    requires v.lastRequest.Some? && SameRequest(request, v.lastRequest.value)
    ensures var u := AfterProfile(w, v, request, now).0;
      u == v.(lastResult := u.lastResult)
  {
  }

  // ---------------------------------------------------------------------
  // Latches over whole runs
  // ---------------------------------------------------------------------

  /** The command is an ESTOP that the receiver accepts in state `v`. */
  predicate AcceptedEstop(w: World, v: Vehicle, op: Op) {
    && op.CommandOp? && op.command.estop && v.started
    && var verdict := v.cursor.Accept(w.limits.receiver, op.command, op.at).1;
       verdict.Some? && verdict.value.accepted
  }

  /** A local reset that the adapter let through. */
  predicate ReleasedReset(w: World, v: Vehicle, op: Op) {
    op.ResetOp? && AfterReset(w, v, op.confirmed, op.authorizedBy).1
  }

  predicate GrantedHandshake(w: World, v: Vehicle, op: Op) {
    op.HandshakeOp? && AfterHandshake(w, v).1 == Returned(true)
  }

  /** An accepted ESTOP latches and revokes the profile whatever the adapter does. */
  lemma EstopAlwaysLatches(w: World, v: Vehicle, op: Op)
    requires AcceptedEstop(w, v, op)
    ensures var u := Step(w, v, op);
      u.machine.state == S.Estop && u.active.None? && u.lastEffective.None?
  {
    var (v1, verdict) := AfterAdmission(w, v, op.command, op.at);
    assert v1.machine.state == S.Estop && v1.active.None?;
    RefreshIsCalm(w, v1);
  }

  /** How one step may move the latched states. */
  lemma LatchStep(w: World, v: Vehicle, op: Op)
    ensures var u := Step(w, v, op);
      && (v.machine.state == S.Estop && u.machine.state != S.Estop ==> ReleasedReset(w, v, op))
      && (v.machine.state == S.Fault && u.machine.state != S.Fault ==>
            AcceptedEstop(w, v, op) && u.machine.state == S.Estop)
      && (v.machine.state != S.Estop && u.machine.state == S.Estop ==> AcceptedEstop(w, v, op))
  {
    match op
    case CommandOp(command, at) => CommandLatchStep(w, v, command, at);
    case TickOp(at) =>
      RefreshIsCalm(w, v.Ask(PollFeedback));
    case ResetOp(confirmed, authorizedBy) =>
      ResetMachine(w, v, confirmed, authorizedBy);
    case ProfileOp(request, at) => ProfileKeepsMachine(w, v, request, at);
    case _ =>
  }

  lemma ConfigureKeepsMachine(w: World, v: Vehicle, request: ProfileRequest, now: int)
    ensures AfterConfigure(w, v, request, now).0.machine == v.machine
    ensures AfterConfigure(w, v, request, now).0.cursor == v.cursor
  {
  }

  lemma NewProfileKeepsMachine(w: World, v: Vehicle, request: ProfileRequest, now: int)
    ensures AfterNewProfile(w, v, request, now).0.machine == v.machine
    ensures AfterNewProfile(w, v, request, now).0.cursor == v.cursor
  {
    var v1 := v.Ask(ReadStatus);
    ConfigureKeepsMachine(w, v1, request, now);
    ConfigureKeepsMachine(w, v1.Ask(ReadHandshake), request, now);
  }

  lemma ProfileKeepsMachine(w: World, v: Vehicle, request: ProfileRequest, now: int)
    ensures AfterProfile(w, v, request, now).0.machine == v.machine
    ensures AfterProfile(w, v, request, now).0.cursor == v.cursor
  {
    NewProfileKeepsMachine(w, v, request, now);
  }

  lemma ResetMachine(w: World, v: Vehicle, confirmed: bool, authorizedBy: string)
    ensures var (u, released) := AfterReset(w, v, confirmed, authorizedBy);
      u.machine == (if released then S.STANDBY else v.machine) && u.cursor == v.cursor
  {
    if AfterReset(w, v, confirmed, authorizedBy).1 {
      var telemetry := v.Reply(w);
      var v3 := v.Ask(ReadTelemetry).Ask(ReadHandshake).(
        stopActive := telemetry.estop || v.Ask(ReadTelemetry).Reply(w).disarming);
      var release := ControlOutput(telemetry.gear, 0.0, 0.0, 0.0, false, false);
      RefreshIsCalm(w, v3.Ask(SafeStop(release, NoSource, NoReason)).(
        machine := v.machine.ResetEstop(confirmed, authorizedBy), stopActive := false));
    }
  }

  /** The safety states a received command can leave behind. */
  lemma CommandLatchStep(w: World, v: Vehicle, command: Command, now: int)
    ensures var u := AfterCommand(w, v, command, now).0;
      var estop := AcceptedEstop(w, v, CommandOp(command, now));
      && (estop ==> u.machine.state == S.Estop)
      && (!estop && v.machine.Latched() ==> u.machine == v.machine)
      && (!estop ==> u.machine.state == S.Estop ==> v.machine.state == S.Estop)
  {
    if AcceptedEstop(w, v, CommandOp(command, now)) {
      EstopAlwaysLatches(w, v, CommandOp(command, now));
    } else if v.started {
      var (v1, verdict) := AfterAdmission(w, v, command, now);
      WatchdogIsCalm(w, v, now);
      WatchdogIsCalm(w, v.(cursor := v.cursor.Accept(w.limits.receiver, command, now).0), now);
      assert v1.machine == v.machine.Tick(w.limits.safety, now) || (command.estop && v1 == v);
      if verdict.Returned? && verdict.value.accepted && v1.active.Some? {
        assert !command.estop && !v1.machine.Latched();
        ForwardingNeverEstops(
          w, v1, Limited(w.limits, v1.active, command), now,
          verdict.value.warnings + LimitWarnings(w.limits, v1.active, command));
      }
    }
  }

  lemma ForwardingNeverEstops(w: World, v: Vehicle, command: Command, now: int, warnings: seq<Cause>)
    requires !command.estop && !v.machine.Latched()
    ensures AfterForwarding(w, v, command, now, warnings).0.machine.state != S.Estop
  {
    RefreshIsCalm(w, v.Ask(PollFeedback));
    var v1 := AfterRefresh(w, v.Ask(PollFeedback)).0;
    assert AfterActuation(w, v1, command, now, warnings).0.machine.state != S.Estop;
    assert AfterActuation(w, v1.Ask(FeedbackReady), command, now, warnings).0.machine.state != S.Estop;
  }

  lemma EstopStays(w: World, v: Vehicle, op: Op)
    requires v.machine.state == S.Estop && !ReleasedReset(w, v, op)
    ensures Step(w, v, op).machine.state == S.Estop
  {
    LatchStep(w, v, op);
  }

  lemma FaultStays(w: World, v: Vehicle, op: Op)
    requires v.machine.state == S.Fault && !AcceptedEstop(w, v, op)
    ensures Step(w, v, op).machine.state == S.Fault
  {
    LatchStep(w, v, op);
  }

  /** No step from the `i`th on is a released local reset. */
  predicate NoReset(w: World, ops: seq<Op>, i: nat) {
    if |ops| <= i then true
    else
      var front := ops[..|ops| - 1];
      !ReleasedReset(w, Run(w, front), ops[|ops| - 1]) && NoReset(w, front, i)
  }

  /** No step from the `i`th on is an accepted ESTOP. */
  predicate NoEstop(w: World, ops: seq<Op>, i: nat) {
    if |ops| <= i then true
    else
      var front := ops[..|ops| - 1];
      !AcceptedEstop(w, Run(w, front), ops[|ops| - 1]) && NoEstop(w, front, i)
  }

  /** Main result: in every run ESTOP is left only by a released local reset. */
  lemma {:induction false} EstopHoldsUntilReset(w: World, ops: seq<Op>, i: nat)
    requires i <= |ops| && Run(w, ops[..i]).machine.state == S.Estop
    requires NoReset(w, ops, i)
    ensures Run(w, ops).machine.state == S.Estop
  {
    if i == |ops| {
      assert ops[..i] == ops;
    } else {
      var n := |ops| - 1;
      assert ops[..n][..i] == ops[..i];
      EstopHoldsUntilReset(w, ops[..n], i);
      EstopStays(w, Run(w, ops[..n]), ops[n]);
    }
  }

  /** Main result: in every run FAULT is left only through an accepted ESTOP. */
  lemma {:induction false} FaultHoldsUntilEstop(w: World, ops: seq<Op>, i: nat)
    requires i <= |ops| && Run(w, ops[..i]).machine.state == S.Fault
    requires NoEstop(w, ops, i)
    ensures Run(w, ops).machine.state == S.Fault
  {
    if i == |ops| {
      assert ops[..i] == ops;
    } else {
      var n := |ops| - 1;
      assert ops[..n][..i] == ops[..i];
      FaultHoldsUntilEstop(w, ops[..n], i);
      FaultStays(w, Run(w, ops[..n]), ops[n]);
    }
  }
}
