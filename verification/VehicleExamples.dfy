/** Runs that show what the vehicle's promises leave open, with valid limits and an
    adapter that agrees to everything. */
module VehicleExamples {
  import opened ControlTypes
  import opened VehicleService
  import opened VehicleRuns
  import opened VehicleDecision
  import opened VehicleSteering
  import S = Safety
  import R = Receiver

  /** An adapter that agrees to everything; the calls 4, 11 and 13 configure. */
  function Agreeable(k: nat): Answer {
    Answer(
      false, false, true, if k < 5 then 1 else if k < 12 then 2 else 3,
      false, Drive, false, true, VcuStandby, false)
  }

  function Setting(id: string): World {
    World(
      Limits(
        R.Config(id, id, id, id, true, 200, 100), S.Config(100, 500, [S.Stage(0, 1.0)]), false, false,
        72.0, 1.0, 640.0, 300.0, 30.0, 1.0, 0.0, 0.0, 0.0, 100, 32000.0),
      Agreeable)
  }

  function Tuned(speed: real, steering: real, brake: real): Profile {
    Profile(PROFILE_VERSION, 500, speed, 100.0, brake, 10.0, 20.0, steering, 1.0, 0.0, 0.0, 0.0, 100, 32000.0)
  }

  function Asking(id: string, number: nat, p: Profile): Op {
    ProfileOp(ProfileRequest(Metadata(PROTOCOL_VERSION, id, id, id, number, 0), id, p), 0)
  }

  function FullLock(id: string): Command {
    Command(Metadata(PROTOCOL_VERSION, id, id, id, 1, 0), id, Drive, 1.0, 0.25, 0.0, false, true)
  }

  /** The vehicle drives with full lock under a limit of 30 degrees, the limit is
      lowered to 10 degrees, and then the speed is lowered too. */
  function Lowering(id: string): seq<Op> {
    [StartOp, Asking(id, 1, Tuned(36.0, 30.0, 100.0)), CommandOp(FullLock(id), 0),
     Asking(id, 2, Tuned(36.0, 10.0, 100.0)), Asking(id, 3, Tuned(18.0, 10.0, 100.0))]
  }

  predicate Reached(v: Vehicle, calls: nat, request: nat, active: Option<Profile>, last: Option<Command>) {
    && v.started && !v.stopActive && |v.trace| == calls
    && v.active == active && v.lastEffective == last
    && (if v.lastRequest.Some? then v.lastRequest.value.meta.number == request else request == 0)
    && (if last.Some? then v.machine.state == S.ControlActive
        else v.machine == S.STANDBY && v.cursor == R.NOTHING_RECEIVED)
  }

  lemma FirstProfile(id: string)
    requires id != ""
    ensures Reached(
      Step(Setting(id), Step(Setting(id), NEW_VEHICLE, StartOp), Asking(id, 1, Tuned(36.0, 30.0, 100.0))),
      5, 1, Some(Tuned(36.0, 30.0, 100.0)), None)
  {
    var w := Setting(id);
    var v := Step(w, NEW_VEHICLE, StartOp);
    assert Reached(v, 2, 0, None, None);
  }

  lemma FullLockIsApplied(id: string, v: Vehicle)
    requires id != "" && Reached(v, 5, 1, Some(Tuned(36.0, 30.0, 100.0)), None)
    ensures Reached(
      Step(Setting(id), v, CommandOp(FullLock(id), 0)), 9, 1, Some(Tuned(36.0, 30.0, 100.0)), Some(FullLock(id)))
  {
  }

  lemma SteeringLimitLowered(id: string, v: Vehicle)
    requires id != "" && Reached(v, 9, 1, Some(Tuned(36.0, 30.0, 100.0)), Some(FullLock(id)))
    ensures Reached(
      Step(Setting(id), v, Asking(id, 2, Tuned(36.0, 10.0, 100.0))),
      12, 2, Some(Tuned(36.0, 10.0, 100.0)), Some(FullLock(id)))
  {
  }

  lemma FullLockIsReapplied(id: string, v: Vehicle)
    requires id != "" && Reached(v, 12, 2, Some(Tuned(36.0, 10.0, 100.0)), Some(FullLock(id)))
    ensures var u := Step(Setting(id), v, Asking(id, 3, Tuned(18.0, 10.0, 100.0)));
      |u.trace| == 15 && u.trace[14] == ApplyControl(FullLock(id)) && u.active == Some(Tuned(18.0, 10.0, 100.0))
  {
  }

  lemma RunNext(w: World, ops: seq<Op>, n: nat)
    requires n < |ops|
    ensures Run(w, ops[..n + 1]) == Step(w, Run(w, ops[..n]), ops[n])
  {
    assert ops[..n + 1][..n] == ops[..n];
  }

  lemma AfterTwo(id: string)
    requires id != ""
    ensures Reached(Run(Setting(id), Lowering(id)[..2]), 5, 1, Some(Tuned(36.0, 30.0, 100.0)), None)
  {
    var w, ops := Setting(id), Lowering(id);
    FirstProfile(id);
    assert ops[..0] == [];
    RunNext(w, ops, 0);
    RunNext(w, ops, 1);
  }

  lemma AfterThree(id: string)
    requires id != ""
    ensures Reached(Run(Setting(id), Lowering(id)[..3]), 9, 1, Some(Tuned(36.0, 30.0, 100.0)), Some(FullLock(id)))
  {
    AfterTwo(id);
    RunNext(Setting(id), Lowering(id), 2);
    FullLockIsApplied(id, Run(Setting(id), Lowering(id)[..2]));
  }

  lemma AfterFour(id: string)
    requires id != ""
    ensures Reached(Run(Setting(id), Lowering(id)[..4]), 12, 2, Some(Tuned(36.0, 10.0, 100.0)), Some(FullLock(id)))
  {
    AfterThree(id);
    RunNext(Setting(id), Lowering(id), 3);
    SteeringLimitLowered(id, Run(Setting(id), Lowering(id)[..3]));
  }

  /** The re-applied command exceeds the active steering limit in this run. */
  lemma ReapplicationMayExceedSteeringLimit(id: string)
    requires id != ""
    ensures Setting(id).limits.Valid()
    ensures var u := Run(Setting(id), Lowering(id));
      && u.active.Some? && |u.trace| == 15 && u.trace[14].ApplyControl?
      && !SteersWithin(u.trace[14].command, u.active.value.maxSteeringDeg)
  {
    var w, ops := Setting(id), Lowering(id);
    AfterFour(id);
    FullLockIsReapplied(id, Run(w, ops[..4]));
    RunNext(w, ops, 4);
    assert ops[..5] == ops;
  }

  // ---------------------------------------------------------------------
  // A brake limit that only the tolerance lets through
  // ---------------------------------------------------------------------

  /** The vehicle's limit is 300 bar. */
  function Tolerated(): Profile {
    Tuned(36.0, 30.0, 300.0 + TOLERANCE)
  }

  function Tolerating(id: string): seq<Op> {
    [StartOp, Asking(id, 1, Tolerated())]
  }

  /** The profile is accepted and configured; then a command to which receiver,
      safety state and adapter all agree does not reach the actuators. */
  lemma ToleratedBrakeLimitIsReached(id: string)
    requires id != ""
    ensures var w, v := Setting(id), Run(Setting(id), Tolerating(id));
      && w.limits.Valid() && v.active == Some(Tolerated())
      && |v.trace| == 5 && v.trace[4] == Configure(Tolerated(), 1)
      && CommandJustified(w, v, FullLock(id), 0)
      && AdapterAgreed(w, |AfterWatchdog(w, v, 0).0.trace|)
      && !Moved(v, AfterCommand(w, v, FullLock(id), 0).0)
  {
    var w, ops := Setting(id), Tolerating(id);
    var v1 := Step(w, NEW_VEHICLE, StartOp);
    assert Reached(v1, 2, 0, None, None);
    assert Reached(Step(w, v1, ops[1]), 5, 1, Some(Tolerated()), None);
    RunNext(w, ops, 0);
    RunNext(w, ops, 1);
    assert ops[..0] == [] && ops[..2] == ops;
    InvHolds(w, ops);
    ToleratedBrakeLimitLocksOut(w, Run(w, ops), FullLock(id), 0);
  }
}
