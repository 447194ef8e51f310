/** The service that decides when a driver command may become traction: command
    and profile admission, the control watchdog, the VCU handshake and the ESTOP
    reset. The vehicle adapter is an arbitrary object: every call may fail or
    answer anything. */
module VehicleService {
  import opened ControlTypes
  import S = Safety
  import R = Receiver

  // ---------------------------------------------------------------------
  // The adapter
  // ---------------------------------------------------------------------

  datatype Call =
    | Open
    | CloseAdapter
    | PollFeedback
    | ReadTelemetry
    | ReadHandshake
    | ReadStatus
    | FeedbackReady
    | ApplyControl(command: Command)
    | SafeStop(output: ControlOutput, source: StopSource, reason: StopReason)
    | Configure(profile: Profile, revision: nat)
    | ClearRuntimeProfile
    | RequestHandshake
    | DisconnectHandshake

  /** One adapter reply; each call reads the fields it is about. `failed` is a
      thrown exception, and `rejected` marks the one kind of exception
      `apply_control` callers tell apart. */
  datatype Answer = Answer(
    failed: bool, rejected: bool, granted: bool, revision: nat,
    estop: bool, gear: Gear, disarming: bool, parkingReady: bool, vcuState: VcuState, mock: bool)

  /** The adapter's replies are fixed in advance by an arbitrary function of the
      call's position, so a statement for every such function is a statement for
      every adapter behaviour. */
  class VehicleAdapter {
    const answers: nat -> Answer
    var trace: seq<Call>

    constructor (answers: nat -> Answer)
      ensures this.answers == answers && trace == []
    {
      this.answers := answers;
      trace := [];
    }

    method Invoke(call: Call) returns (answer: Answer)
      modifies this
      ensures trace == old(trace) + [call]
      ensures answer == answers(|old(trace)|)
    {
      answer := answers(|trace|);
      trace := trace + [call];
    }
  }

  // ---------------------------------------------------------------------
  // Configuration and state
  // ---------------------------------------------------------------------

  datatype Limits = Limits(
    receiver: R.Config, safety: S.Config, bench: bool, requireFeedback: bool,
    maxSpeedKph: real, maxThrottle: real, fullScaleTorqueNm: real,
    maxBrakeBar: real, maxSteeringDeg: real,
    pidKp: real, pidKi: real, pidKd: real, pidTauMs: real, pidMaxDtMs: int, torqueRiseRate: real)
  {
    /** The ranges the configuration loader enforces and the constructor relies on. */
    ghost predicate Valid() {
      && receiver.Valid() && receiver.authority
      && safety.Valid()
      && InRange(maxSpeedKph, 0.0, MAX_PROFILE_SPEED_KPH)
      && InRange(maxThrottle, 0.0, 1.0)
      && InRange(fullScaleTorqueNm, 0.0, MAX_MOTOR_TORQUE_NM)
      && InRange(maxBrakeBar, 0.0, MAX_ORDINARY_BRAKE_BAR)
      && InRange(maxSteeringDeg, 0.0, MAX_STEERING_ANGLE_DEG)
    }

    /** What the change detection compares with when no profile is active. */
    function EmptyProfile(): Profile {
      Profile(
        PROFILE_VERSION, 500, 0.0, 0.0, 0.0, 0.0, 0.0, 0.0,
        pidKp, pidKi, pidKd, pidTauMs, pidMaxDtMs, torqueRiseRate)
    }
  }

  datatype World = World(limits: Limits, answers: nat -> Answer)

  datatype Vehicle = Vehicle(
    started: bool, cursor: R.Cursor, machine: S.Machine, stopActive: bool,
    active: Option<Profile>, lastEffective: Option<Command>,
    lastRequest: Option<ProfileRequest>, lastResult: Option<ProfileResult>,
    trace: seq<Call>)
  {
    function Ask(call: Call): Vehicle {
      this.(trace := trace + [call])
    }

    /** The reply the next adapter call will get. */
    function Reply(w: World): Answer {
      w.answers(|trace|)
    }
  }

  const NEW_VEHICLE: Vehicle :=
    Vehicle(false, R.NOTHING_RECEIVED, S.POWERED_UP, false, None, None, None, None, [])

  datatype Outcome<+T> = Threw | Returned(value: T)

  datatype Receipt = Receipt(accepted: bool, reason: Cause, command: Option<Command>, warnings: seq<Cause>)

  const SOFTWARE_STOP: ControlOutput := ControlOutput(NeutralGear, 0.0, 0.0, 1.0, false, true)
  const ESTOP_STOP: ControlOutput := ControlOutput(NeutralGear, 0.0, 0.0, 1.0, true, false)

  const PROFILE_MAX_AGE_MS: int := 2000

  // ---------------------------------------------------------------------
  // Shared steps
  // ---------------------------------------------------------------------

  function Cleared(result: ProfileResult): ProfileResult {
    result.(accepted := false, idempotent := false, appliedRevision := 0,
            reason := SessionProfileCleared, effective := None)
  }

  /** `clear_session_profile`: the adapter's answer to the last call is ignored. */
  function AfterClear(v: Vehicle): Vehicle {
    v.(active := None, lastEffective := None,
       lastResult := if v.lastResult.Some? then Some(Cleared(v.lastResult.value)) else None,
       trace := v.trace + [ClearRuntimeProfile])
  }

  /** `refresh_adapter_safe_stop_state`: whether the adapter owns a stop, and
      whether it could be observed at all. */
  function AfterRefresh(w: World, v: Vehicle): (Vehicle, bool) {
    var telemetry := v.Reply(w);
    var v1 := v.Ask(ReadTelemetry);
    if telemetry.failed then (v1, false)
    else
      var handshake := v1.Reply(w);
      var v2 := v1.Ask(ReadHandshake);
      if handshake.failed then (v2, false)
      else
        var stop := telemetry.estop || handshake.disarming;
        var v3 := v2.(stopActive := stop);
        (if stop then AfterClear(v3) else v3, true)
  }

  function StopContext(state: S.State): (StopSource, StopReason) {
    match state
    case Degraded => (Watchdog, OuterControlTimeout)
    case TimeoutBrake => (Watchdog, OuterControlTimeout)
    case Estop => (DriverPage, OperatorEstop)
    case _ => (SoftwareFault, VcuStateFault)
  }

  /** The watchdog's own verdict on the new safety state. */
  function AfterWatchdogTick(w: World, v: Vehicle, now: int): Vehicle {
    var v1 := v.(machine := v.machine.Tick(w.limits.safety, now));
    if v1.machine.state == S.TimeoutBrake || v1.machine.Latched() then AfterClear(v1) else v1
  }

  /** `evaluate_control_watchdog`; the flag is false when the stop call threw. */
  function AfterWatchdog(w: World, v: Vehicle, now: int): (Vehicle, bool) {
    var v1 := AfterWatchdogTick(w, v, now);
    var state := v1.machine.state;
    if state == S.Degraded || state == S.TimeoutBrake || v1.machine.Latched() then
      if v1.stopActive && !v1.machine.Latched() then (v1, true)
      else
        var (source, reason) := StopContext(state);
        (v1.Ask(SafeStop(v1.machine.Output(w.limits.safety, now), source, reason)), !v1.Reply(w).failed)
    else (v1, true)
  }

  // ---------------------------------------------------------------------
  // Commands
  // ---------------------------------------------------------------------

  function SessionThrottle(limits: Limits, profile: Profile): real {
    if limits.maxSpeedKph > 0.0 then profile.targetSpeedKph / limits.maxSpeedKph else 0.0
  }

  function SteeringLimit(limits: Limits, active: Option<Profile>): real {
    MinReal(
      limits.maxSteeringDeg,
      if active.Some? then active.value.maxSteeringDeg else limits.maxSteeringDeg) / 30.0
  }

  function Limited(limits: Limits, active: Option<Profile>, command: Command): Command {
    var bySession :=
      if active.Some? then SessionThrottle(limits, active.value) else limits.maxThrottle;
    command.(
      throttle := MinReal(MinReal(command.throttle, limits.maxThrottle), bySession),
      steering := Clamp(command.steering, -SteeringLimit(limits, active), SteeringLimit(limits, active)))
  }

  function LimitWarnings(limits: Limits, active: Option<Profile>, command: Command): seq<Cause> {
    var byVehicle := MinReal(command.throttle, limits.maxThrottle);
    var limited := Limited(limits, active, command);
    (if byVehicle != command.throttle then [VehicleMaxThrottleApplied] else [])
    + (if limited.throttle != byVehicle then [SessionTargetSpeedApplied] else [])
    + (if limited.steering == command.steering then []
       else if active.Some? && active.value.maxSteeringDeg + TOLERANCE < limits.maxSteeringDeg
       then [SessionMaxSteeringApplied]
       else [VehicleMaxSteeringApplied])
  }

  /** The watchdog and the receiver, in the order the kind of command asks for:
      an accepted ESTOP is latched before anything can fail. */
  function AfterAdmission(w: World, v: Vehicle, command: Command, now: int): (Vehicle, Outcome<R.Verdict>) {
    if command.estop then
      var (cursor, verdict) := v.cursor.Accept(w.limits.receiver, command, now);
      if verdict.None? then (v, Threw)
      else
        var v1 := v.(cursor := cursor);
        if verdict.value.accepted then
          (AfterClear(v1.(machine := v.machine.OnValidCommand(command, now))), Returned(verdict.value))
        else
          var (v2, safe) := AfterWatchdog(w, v1, now);
          (v2, if safe then Returned(verdict.value) else Threw)
    else
      var (v1, safe) := AfterWatchdog(w, v, now);
      if !safe then (v1, Threw)
      else
        var (cursor, verdict) := v1.cursor.Accept(w.limits.receiver, command, now);
        (v1.(cursor := cursor), if verdict.None? then Threw else Returned(verdict.value))
  }

  function Refusal(reason: Cause, warnings: seq<Cause>): Outcome<Receipt> {
    Returned(Receipt(false, reason, None, warnings))
  }

  /** A refusal that first faults the machine and stops the vehicle. */
  function AfterFaultStop(
    w: World, v: Vehicle, now: int, reason: StopReason, why: Cause, warnings: seq<Cause>)
    : (Vehicle, Outcome<Receipt>)
  {
    var v1 := v.(machine := v.machine.MarkFault());
    AfterStop(
      w, v1, SafeStop(v1.machine.Output(w.limits.safety, now), SoftwareFault, reason), why, warnings)
  }

  /** A stop that ends the session profile, unless the adapter throws. */
  function AfterStop(w: World, v: Vehicle, stop: Call, why: Cause, warnings: seq<Cause>)
    : (Vehicle, Outcome<Receipt>)
  {
    var v1 := v.Ask(stop);
    if v.Reply(w).failed then (v1, Threw) else (AfterClear(v1), Refusal(why, warnings))
  }

  /** The last step of an ordinary command: everything before it has agreed. */
  function AfterActuation(
    w: World, v: Vehicle, command: Command, now: int, warnings: seq<Cause>)
    : (Vehicle, Outcome<Receipt>)
  {
    var brake :=
      if v.active.Some?
      then VehicleBrakeRequest(command.brake, v.active.value.maxBrakeBar, w.limits.maxBrakeBar)
      else Some(command.brake);
    if brake.None? then (v, Threw)
    else if v.machine.Latched() then
      AfterLatchedStop(w, v, command.(brake := brake.value), now, command, warnings)
    else
      var v1 := v.Ask(ApplyControl(command));
      if v.Reply(w).failed then
        (v1, if v.Reply(w).rejected then Refusal(AdapterControlRejected, warnings) else Threw)
      else
        (v1.(machine := v.machine.OnValidCommand(command.(brake := brake.value), now),
             lastEffective := Some(command)),
         Returned(Receipt(true, AsRequested, Some(command), warnings)))
  }

  /** The last step when the machine is latched, which is every ESTOP's last step. */
  function AfterLatchedStop(
    w: World, v: Vehicle, safetyCommand: Command, now: int, command: Command, warnings: seq<Cause>)
    : (Vehicle, Outcome<Receipt>)
  {
    var v1 := v.(machine := v.machine.OnValidCommand(safetyCommand, now));
    var done := Returned(Receipt(true, AsRequested, Some(command), warnings));
    if v1.stopActive && !v1.machine.Latched() then (v1, done)
    else
      var v2 := if v1.machine.Latched() then AfterClear(v1) else v1;
      var (source, reason) :=
        if v1.machine.state == S.Estop then (DriverPage, OperatorEstop) else (SoftwareFault, VcuStateFault);
      (v2.Ask(SafeStop(v2.machine.Output(w.limits.safety, now), source, reason)),
       if v2.Reply(w).failed then Threw else done)
  }

  /** What follows once the command has been limited: ask the adapter whether it
      has stopped itself and whether it sees the vehicle, then act. */
  function AfterForwarding(
    w: World, v: Vehicle, command: Command, now: int, warnings: seq<Cause>)
    : (Vehicle, Outcome<Receipt>)
  {
    if command.estop then
      AfterLatchedStop(w, AfterRefresh(w, v).0, command, now, command, warnings)
    else
      var pollFailed := v.Reply(w).failed;
      var (v1, observed) := AfterRefresh(w, v.Ask(PollFeedback));
      if v1.stopActive then (v1, Refusal(AdapterSafeStopActive, warnings))
      else if !observed then
        AfterFaultStop(
          w, v1, now, AdapterSafetyStatusUnavailable, StopStatusUnreadable, warnings)
      else if pollFailed && w.limits.requireFeedback then
        AfterFaultStop(w, v1, now, CanFeedbackMissing, CanFeedbackPollFailed, warnings)
      else if w.limits.requireFeedback then
        var v2 := v1.Ask(FeedbackReady);
        if v1.Reply(w).failed then (v2, Threw)
        else if !v1.Reply(w).granted then
          AfterStop(
            w, v2, SafeStop(SOFTWARE_STOP, SoftwareFault, CanFeedbackMissing), FeedbackMissing, warnings)
        else AfterActuation(w, v2, command, now, warnings)
      else AfterActuation(w, v1, command, now, warnings)
  }

  function AfterCommand(w: World, v: Vehicle, command: Command, now: int): (Vehicle, Outcome<Receipt>) {
    if !v.started then (v, Threw)
    else
      var (v1, verdict) := AfterAdmission(w, v, command, now);
      if verdict.Threw? then (v1, Threw)
      else if !verdict.value.accepted then (v1, Refusal(verdict.value.reason, verdict.value.warnings))
      else if !command.estop && v1.active.None? then
        if v1.stopActive then (v1, Refusal(SessionControlProfileRequired, []))
        else
          (v1.Ask(SafeStop(SOFTWARE_STOP, SoftwareFault, SessionProfileRequired)),
           if v1.Reply(w).failed then Threw else Refusal(SessionControlProfileRequired, []))
      else if !command.estop && v1.machine.state == S.Degraded && !command.Neutral() then
        (v1, Refusal(DegradedNeutralRequired, verdict.value.warnings))
      else
        AfterForwarding(
          w, v1, Limited(w.limits, v1.active, command), now,
          verdict.value.warnings + LimitWarnings(w.limits, v1.active, command))
  }

  // ---------------------------------------------------------------------
  // Session profiles
  // ---------------------------------------------------------------------

  function ProfileReply(
    w: World, active: Option<Profile>, request: ProfileRequest, now: int,
    accepted: bool, idempotent: bool, reason: Cause): ProfileResult
  {
    var number := if request.meta.number == 0 then 1 else request.meta.number;
    ProfileResult(
      Metadata(
        PROTOCOL_VERSION, w.limits.receiver.vehicle, w.limits.receiver.driver,
        w.limits.receiver.session, number, if now < 0 then 0 else now),
      accepted, idempotent, if accepted then number else 0, reason, active)
  }

  /** The answer to a request is remembered for replays. */
  function Cached(w: World, v: Vehicle, request: ProfileRequest, now: int, accepted: bool, reason: Cause)
    : (Vehicle, Outcome<ProfileResult>)
  {
    var result := ProfileReply(w, v.active, request, now, accepted, false, reason);
    (v.(lastRequest := Some(request), lastResult := Some(result)), Returned(result))
  }

  /** Everything but the time of sending. */
  predicate SameRequest(a: ProfileRequest, b: ProfileRequest) {
    a.meta.(sentAt := 0) == b.meta.(sentAt := 0) && a.token == b.token && a.profile == b.profile
  }

  function AfterReplay(w: World, v: Vehicle, request: ProfileRequest, now: int)
    : (Vehicle, Outcome<ProfileResult>)
    requires v.lastRequest.Some?
  {
    if !SameRequest(request, v.lastRequest.value) then
      (v, Returned(ProfileReply(w, v.active, request, now, false, false, ProfileSeqConflict)))
    else if v.lastResult.None? then (v, Threw)
    else if v.active.None? && v.lastResult.value.accepted then
      (v, Returned(ProfileReply(w, v.active, request, now, false, true, SessionProfileCleared)))
    else
      var last := v.lastResult.value;
      var replay := last.(meta := last.meta.(sentAt := now), idempotent := true, effective := v.active);
      (v.(lastResult := Some(replay)), Returned(replay))
  }

  function LimitViolation(limits: Limits, p: Profile): Option<Cause> {
    if p.targetSpeedKph > limits.maxSpeedKph * limits.maxThrottle + TOLERANCE then
      Some(TargetSpeedExceedsVehicleLimit)
    else if p.maxTorqueNm > limits.fullScaleTorqueNm + TOLERANCE then
      Some(MotorTorqueExceedsVehicleLimit)
    else if p.maxBrakeBar > limits.maxBrakeBar + TOLERANCE then
      Some(BrakePressureExceedsVehicleLimit)
    else if p.maxSteeringDeg > limits.maxSteeringDeg + TOLERANCE then
      Some(SteeringExceedsVehicleLimit)
    else None
  }

  function CurrentProfile(limits: Limits, active: Option<Profile>): Profile {
    if active.Some? then active.value else limits.EmptyProfile()
  }

  predicate BrakeChanged(current: Profile, p: Profile) {
    || p.maxBrakeBar != current.maxBrakeBar
    || p.serviceBrakeBar != current.serviceBrakeBar
    || p.hardBrakeBar != current.hardBrakeBar
  }

  predicate SteeringChanged(current: Profile, p: Profile) {
    p.maxSteeringDeg != current.maxSteeringDeg
  }

  predicate PidChanged(current: Profile, p: Profile) {
    || p.pidKp != current.pidKp || p.pidKi != current.pidKi || p.pidKd != current.pidKd
    || p.pidTauMs != current.pidTauMs || p.pidMaxDtMs != current.pidMaxDtMs
    || p.torqueRiseRate != current.torqueRiseRate
  }

  /** The changes that need a parked vehicle. */
  predicate NeedsParking(limits: Limits, active: Option<Profile>, p: Profile) {
    var current := CurrentProfile(limits, active);
    || active.None?
    || p.targetSpeedKph > current.targetSpeedKph + TOLERANCE
    || p.maxTorqueNm > current.maxTorqueNm + TOLERANCE
    || BrakeChanged(current, p) || SteeringChanged(current, p) || PidChanged(current, p)
    || p.parkingIdleMs != current.parkingIdleMs
  }

  /** The changes after which the last command is sent again under the new limit. */
  predicate NeedsReapply(limits: Limits, v: Vehicle, p: Profile) {
    var current := CurrentProfile(limits, v.active);
    && (p.targetSpeedKph + TOLERANCE < current.targetSpeedKph || p.maxTorqueNm + TOLERANCE < current.maxTorqueNm)
    && !BrakeChanged(current, p) && !SteeringChanged(current, p) && !PidChanged(current, p)
    && v.lastEffective.Some?
    && v.machine.state == S.ControlActive
  }

  function Reapplied(limits: Limits, last: Command, p: Profile): Command {
    last.(throttle :=
      MinReal(last.throttle, MinReal(limits.maxThrottle, SessionThrottle(limits, p))))
  }

  function AfterProfileFailure(w: World, v: Vehicle, request: ProfileRequest, now: int)
    : (Vehicle, Outcome<ProfileResult>)
  {
    var v1 := AfterClear(v.Ask(SafeStop(ESTOP_STOP, SoftwareFault, ControlApplyFailed)));
    Cached(w, v1, request, now, false, AdapterSessionProfileApplyFailed)
  }

  function AfterConfigure(w: World, v: Vehicle, request: ProfileRequest, now: int)
    : (Vehicle, Outcome<ProfileResult>)
  {
    var p := request.profile;
    var v1 := v.Ask(Configure(p, request.meta.number));
    if v.Reply(w).failed || v.Reply(w).revision != request.meta.number then
      AfterProfileFailure(w, v1, request, now)
    else if NeedsReapply(w.limits, v, p) then
      var command := Reapplied(w.limits, v.lastEffective.value, p);
      var v2 := v1.Ask(ApplyControl(command));
      if v1.Reply(w).failed then AfterProfileFailure(w, v2, request, now)
      else
        Cached(w, v2.(lastEffective := Some(command), active := Some(p)), request, now, true, AsRequested)
    else Cached(w, v1.(active := Some(p)), request, now, true, AsRequested)
  }

  /** The checks that need the adapter, for a request that is new and timely. */
  function AfterNewProfile(w: World, v: Vehicle, request: ProfileRequest, now: int)
    : (Vehicle, Outcome<ProfileResult>)
  {
    var violation := LimitViolation(w.limits, request.profile);
    if violation.Some? then Cached(w, v, request, now, false, violation.value)
    else
      var v1 := v.Ask(ReadStatus);
      if v.Reply(w).failed then (v1, Threw)
      else if NeedsParking(w.limits, v.active, request.profile) && !(w.limits.bench && v.Reply(w).mock) then
        var handshake := v1.Reply(w);
        var v2 := v1.Ask(ReadHandshake);
        if handshake.failed || !handshake.parkingReady then
          Cached(w, v2, request, now, false, ParkingReadyRequiredForProfileIncrease)
        else if handshake.vcuState != VcuStandby && handshake.vcuState != VcuDisarmed then
          Cached(w, v2, request, now, false, StandbyOrDisarmedRequiredForProfileChange)
        else AfterConfigure(w, v2, request, now)
      else AfterConfigure(w, v1, request, now)
  }

  /** The checks on the request alone; `None` lets it through. */
  function ProfileRefusal(w: World, v: Vehicle, request: ProfileRequest, now: int): Option<Cause> {
    if !request.meta.Valid() || request.token == "" then Some(InvalidProfile)
    else if request.meta.vehicle != w.limits.receiver.vehicle then Some(WrongVehicle)
    else if request.meta.driver != w.limits.receiver.driver then Some(WrongDriver)
    else if request.meta.session != w.limits.receiver.session then Some(WrongSession)
    else if request.token != w.limits.receiver.token then Some(ControlTokenInvalid)
    else if v.lastRequest.Some? && request.meta.number < v.lastRequest.value.meta.number then Some(OldSeq)
    else None
  }

  function FreshnessRefusal(request: ProfileRequest, now: int): Option<Cause> {
    if !request.profile.Valid() then Some(InvalidProfile)
    else if now - request.meta.sentAt > PROFILE_MAX_AGE_MS then Some(ProfileAgeExceeded)
    else if now - request.meta.sentAt < -PROFILE_MAX_AGE_MS then Some(ProfileTimestampInFuture)
    else None
  }

  function AfterProfile(w: World, v: Vehicle, request: ProfileRequest, now: int)
    : (Vehicle, Outcome<ProfileResult>)
  {
    if !v.started || now < 0 then (v, Threw)
    else
      var refusal := ProfileRefusal(w, v, request, now);
      if refusal.Some? then
        (v, Returned(ProfileReply(w, v.active, request, now, false, false, refusal.value)))
      else if v.lastRequest.Some? && request.meta.number == v.lastRequest.value.meta.number then
        AfterReplay(w, v, request, now)
      else
        var stale := FreshnessRefusal(request, now);
        if stale.Some? then
          (v, Returned(ProfileReply(w, v.active, request, now, false, false, stale.value)))
        else AfterNewProfile(w, v, request, now)
  }

  // ---------------------------------------------------------------------
  // Handshake, tick, reset, start and close
  // ---------------------------------------------------------------------

  function AfterHandshake(w: World, v: Vehicle): (Vehicle, Outcome<bool>) {
    if !v.started then (v, Threw)
    else if v.active.None? || v.machine.Latched() then (v, Returned(false))
    else
      var v1 := v.Ask(RequestHandshake);
      if v.Reply(w).failed then (v1, Threw)
      else if !v.Reply(w).granted then (v1, Returned(false))
      else (v1.(machine := v.machine.ResetToStandby(), stopActive := false), Returned(true))
  }

  function AfterDisconnect(w: World, v: Vehicle): (Vehicle, Outcome<bool>) {
    if !v.started then (v, Threw)
    else
      var v1 := v.Ask(DisconnectHandshake);
      if v.Reply(w).failed then (v1, Threw)
      else if !v.Reply(w).granted then (v1, Returned(false))
      else (AfterClear(v1.(stopActive := true)), Returned(true))
  }

  function AfterTick(w: World, v: Vehicle, now: int): (Vehicle, Outcome<()>) {
    if !v.started then (v, Threw)
    else
      var pollFailed := v.Reply(w).failed;
      var (v1, observed) := AfterRefresh(w, v.Ask(PollFeedback));
      var blind := (!observed || pollFailed) && !v1.stopActive && w.limits.requireFeedback;
      var v2 :=
        if blind && !v1.machine.Latched() then v1.(machine := v1.machine.MarkFault()) else v1;
      var (v3, safe) := AfterWatchdog(w, v2, now);
      (v3, if safe then Returned(()) else Threw)
  }

  function AfterReset(w: World, v: Vehicle, confirmed: bool, authorizedBy: string): (Vehicle, bool) {
    if v.machine.state != S.Estop || !confirmed || authorizedBy == "" then (v, false)
    else
      var telemetry := v.Reply(w);
      var v1 := v.Ask(ReadTelemetry);
      if telemetry.failed then (v1, false)
      else
        var handshake := v1.Reply(w);
        var v2 := v1.Ask(ReadHandshake);
        if handshake.failed then (v2, false)
        else
          var v3 := v2.(stopActive := telemetry.estop || handshake.disarming);
          if handshake.disarming then (v3, false)
          else
            var release := ControlOutput(telemetry.gear, 0.0, 0.0, 0.0, false, false);
            var v4 := v3.Ask(SafeStop(release, NoSource, NoReason));
            if v3.Reply(w).failed then (v4.(stopActive := true), false)
            else
              var v5 := v4.(machine := v.machine.ResetEstop(confirmed, authorizedBy), stopActive := false);
              (AfterRefresh(w, v5).0, true)
  }

  function AfterStart(w: World, v: Vehicle): (Vehicle, Outcome<()>) {
    if v.started then (v, Returned(()))
    else
      var v1 := v.Ask(Open);
      if v.Reply(w).failed then (v1, Threw)
      else
        var v2 := v1.Ask(ClearRuntimeProfile);
        if v1.Reply(w).failed then (v2.Ask(CloseAdapter), Threw)
        else (v2.(machine := v.machine.MarkReady(), started := true), Returned(()))
  }

  function AfterClose(w: World, v: Vehicle, source: StopSource, reason: StopReason): (Vehicle, Outcome<()>) {
    if !v.started then (v, Returned(()))
    else
      var v1 := v.Ask(SafeStop(ESTOP_STOP, source, reason));
      if v.Reply(w).failed then (v1, Threw)
      else
        var v2 := AfterClear(v1);
        var v3 := v2.Ask(CloseAdapter);
        if v2.Reply(w).failed then (v3, Threw) else (v3.(started := false), Returned(()))
  }
}
