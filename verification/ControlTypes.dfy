/** Values shared by the driver-side intent store and the vehicle-side control
    stack: commands, session profiles and their field checks. Doubles are
    modelled as reals (every value is finite) and timestamps as integers. */
module ControlTypes {

  datatype Option<+T> = None | Some(value: T)

  const PROTOCOL_VERSION: int := 1
  const PROFILE_VERSION: int := 4
  const TOLERANCE: real := 0.000000001
  const MAX_PROFILE_SPEED_KPH: real := 72.0
  const MAX_MOTOR_TORQUE_NM: real := 640.0
  const MAX_ORDINARY_BRAKE_BAR: real := 327.6
  const MAX_STEERING_ANGLE_DEG: real := 30.0
  const MAX_PID_GAIN: real := 100.0
  const MAX_PID_FILTER_TAU_MS: real := 2000.0
  const MAX_TORQUE_RISE_RATE: real := 32000.0

  function Abs(x: real): real {
    if x < 0.0 then -x else x
  }

  function MinReal(x: real, y: real): real {
    if y < x then y else x
  }

  function Clamp(x: real, low: real, high: real): real {
    if x < low then low else if high < x then high else x
  }

  predicate InRange(x: real, low: real, high: real) {
    low <= x <= high
  }

  /** Why a record was taken, refused or changed. */
  datatype Cause =
    | AdapterControlRejected | AdapterSafeStopActive | AdapterSessionProfileApplyFailed | AsRefresh
    | AsRequested | BrakePressureExceedsVehicleLimit | CanFeedbackPollFailed | CommandAgeExceeded
    | CommandGapExceeded | CommandTimestampInFuture | ControlAuthorityMissing | ControlTokenInvalid
    | DegradedNeutralRequired | DriverTimestampSkew | FeedbackMissing | FreshNeutralRequired
    | IntentSeqConflict | InvalidCommand | InvalidProfile | MotorTorqueExceedsVehicleLimit | OldIntentSeq
    | OldSeq | ParkingReadyRequiredForProfileIncrease | ProfileAgeExceeded | ProfileSeqConflict
    | ProfileTimestampInFuture | ReceiveTimeReversed | SessionControlProfileRequired
    | SessionMaxSteeringApplied | SessionProfileCleared | SessionTargetSpeedApplied
    | StandbyOrDisarmedRequiredForProfileChange | SteeringExceedsVehicleLimit | StopStatusUnreadable
    | TargetSpeedExceedsVehicleLimit | VehicleMaxSteeringApplied | VehicleMaxThrottleApplied | WrongDriver
    | WrongProtocolVersion | WrongSession | WrongVehicle

  datatype Gear = Park | Reverse | NeutralGear | Drive | UnknownGear

  datatype VcuState = VcuDisarmed | VcuStandby | OtherVcuState

  predicate KnownGear(gear: Gear) {
    gear != UnknownGear
  }

  /** The protocol envelope every control-plane record carries. */
  datatype Metadata = Metadata(
    version: int, vehicle: string, driver: string, session: string, number: nat, sentAt: int)
  {
    predicate Valid() {
      && version == PROTOCOL_VERSION
      && vehicle != "" && driver != "" && session != ""
      && number > 0 && sentAt >= 0
    }
  }

  datatype Command = Command(
    meta: Metadata, token: string, gear: Gear,
    steering: real, throttle: real, brake: real, estop: bool, operatorActive: bool)
  {
    predicate Valid() {
      && meta.Valid()
      && token != ""
      && KnownGear(gear)
      && InRange(steering, -1.0, 1.0)
      && InRange(throttle, 0.0, 1.0)
      && InRange(brake, 0.0, 1.0)
    }

    /** No traction and no steering; braking stays allowed. */
    predicate Neutral() {
      throttle <= TOLERANCE && Abs(steering) <= TOLERANCE
    }
  }

  datatype Profile = Profile(
    version: int, parkingIdleMs: int,
    targetSpeedKph: real, maxTorqueNm: real,
    maxBrakeBar: real, serviceBrakeBar: real, hardBrakeBar: real,
    maxSteeringDeg: real,
    pidKp: real, pidKi: real, pidKd: real, pidTauMs: real, pidMaxDtMs: int,
    torqueRiseRate: real)
  {
    predicate Valid() {
      && 0 <= parkingIdleMs <= 1000
      && version == PROFILE_VERSION
      && InRange(targetSpeedKph, 0.0, MAX_PROFILE_SPEED_KPH)
      && InRange(maxTorqueNm, 0.0, MAX_MOTOR_TORQUE_NM)
      && InRange(maxBrakeBar, 0.0, MAX_ORDINARY_BRAKE_BAR)
      && InRange(serviceBrakeBar, 0.0, MAX_ORDINARY_BRAKE_BAR)
      && InRange(hardBrakeBar, 0.0, MAX_ORDINARY_BRAKE_BAR)
      && serviceBrakeBar <= hardBrakeBar <= maxBrakeBar
      && InRange(maxSteeringDeg, 0.0, MAX_STEERING_ANGLE_DEG)
      && 0.0 < pidKp <= MAX_PID_GAIN
      && InRange(pidKi, 0.0, MAX_PID_GAIN)
      && InRange(pidKd, 0.0, MAX_PID_GAIN)
      && InRange(pidTauMs, 0.0, MAX_PID_FILTER_TAU_MS)
      && 20 <= pidMaxDtMs <= 200
      && InRange(torqueRiseRate, 0.0, MAX_TORQUE_RISE_RATE)
    }
  }

  datatype ProfileRequest = ProfileRequest(meta: Metadata, token: string, profile: Profile)

  datatype ProfileResult = ProfileResult(
    meta: Metadata, accepted: bool, idempotent: bool, appliedRevision: nat,
    reason: Cause, effective: Option<Profile>)

  /** What the vehicle sends to the actuators when it does not forward a command. */
  datatype ControlOutput = ControlOutput(
    gear: Gear, steering: real, throttle: real, brake: real,
    estop: bool, fullEmergencyBrake: bool)

  datatype StopSource = NoSource | DriverPage | SessionEnd | Watchdog | SoftwareFault

  datatype StopReason =
    | NoReason | OperatorEstop | SessionLost | OuterControlTimeout | ControlApplyFailed
    | VcuStateFault | SessionProfileRequired | CanFeedbackMissing | AdapterSafetyStatusUnavailable

  /** The local speed setpoint an adapter derives from a command; `None` stands
      for the thrown argument errors. */
  function TargetSpeedMps(command: Command, maxSpeedMps: real): Option<real> {
    if !command.Valid() || maxSpeedMps < 0.0 then None
    else Some(
      if (command.gear == Drive || command.gear == Reverse) && command.brake == 0.0
      then Clamp(command.throttle, 0.0, 1.0) * maxSpeedMps
      else 0.0)
  }

  /** The vehicle-wide normalised brake for a session-relative brake request;
      `None` stands for the thrown range errors. */
  function VehicleBrakeRequest(sessionBrake: real, sessionMaxBar: real, vehicleMaxBar: real): (r: Option<real>)
    ensures r.Some? <==>
      InRange(sessionBrake, 0.0, 1.0) && 0.0 <= sessionMaxBar <= vehicleMaxBar <= MAX_ORDINARY_BRAKE_BAR
    ensures r.Some? ==> 0.0 <= r.value <= sessionBrake
  {
    if !InRange(sessionBrake, 0.0, 1.0) then None
    else if !InRange(vehicleMaxBar, 0.0, MAX_ORDINARY_BRAKE_BAR) then None
    else if !InRange(sessionMaxBar, 0.0, vehicleMaxBar) then None
    else if vehicleMaxBar > 0.0 then
      ScaledDown(sessionBrake, sessionMaxBar, vehicleMaxBar);
      Some(sessionBrake * sessionMaxBar / vehicleMaxBar)
    else Some(0.0)
  }

  lemma ScaledDown(x: real, part: real, whole: real)
    requires 0.0 <= x && 0.0 <= part <= whole && whole > 0.0
    ensures 0.0 <= x * part / whole <= x
  {
    var product := x * part;
    assert 0.0 <= product <= x * whole;
    assert (product / whole) * whole == product;
  }
}
