/** What bounds the steering of a traction call: a received command keeps to the
    limit of the active profile, a re-applied one need not. */
module VehicleSteering {
  import opened ControlTypes
  import opened VehicleService
  import opened VehicleRuns
  import S = Safety
  import R = Receiver

  /** The steering of `command`, taken over the full angle, is within a limit. */
  predicate SteersWithin(command: Command, degrees: real) {
    Abs(command.steering) * 30.0 <= degrees
  }

  /** Every received command that reaches the actuators steers within the profile
      that is active at that moment. */
  lemma CommandSteersWithin(w: World, v: Vehicle, command: Command, now: int, k: nat)
    requires w.limits.Valid() && Inv(w, v)
    requires var trace := AfterCommand(w, v, command, now).0.trace;
      |v.trace| <= k < |trace| && trace[k].ApplyControl?
    ensures v.active.Some?
    ensures SteersWithin(AfterCommand(w, v, command, now).0.trace[k].command, v.active.value.maxSteeringDeg)
  {
    CommandApplies(w, v, command, now, k);
    AppliedCommand(w, v, CommandOp(command, now), AfterCommand(w, v, command, now).0.trace, k);
    LimitedSteersWithin(w, v.active.value, command);
  }

  /** A re-applied command steers within the new profile if and only if the
      remembered command already did: nothing limits its steering again. */
  lemma ReappliedSteersWithin(w: World, v: Vehicle, request: ProfileRequest, now: int, k: nat)
    requires w.limits.Valid() && Inv(w, v)
    requires var trace := AfterProfile(w, v, request, now).0.trace;
      |v.trace| <= k < |trace| && trace[k].ApplyControl?
    ensures v.lastEffective.Some?
    ensures SteersWithin(
        AfterProfile(w, v, request, now).0.trace[k].command, request.profile.maxSteeringDeg)
      <==> SteersWithin(v.lastEffective.value, request.profile.maxSteeringDeg)
  {
    ProfileApplies(w, v, request, now, k);
  }

  // ---------------------------------------------------------------------
  // Where an excess comes from, over every run
  // ---------------------------------------------------------------------

  /** The traction call `j` carried this steering, within the limit of the profile
      configured by call `c`, which was in force. */
  ghost predicate AppliedUnder(trace: seq<Call>, c: nat, j: nat, command: Command) {
    && c < j < |trace| && trace[c].Configure? && trace[j].ApplyControl?
    && (forall m | c < m < j :: !trace[m].Configure? && !trace[m].ClearRuntimeProfile?)
    && trace[j].command.steering == command.steering
    && SteersWithin(command, trace[c].profile.maxSteeringDeg)
  }

  /** After that traction call a profile with a lower steering limit was configured. */
  predicate LoweredAt(trace: seq<Call>, c: nat, j: nat, i: nat) {
    c < j < i < |trace| && trace[c].Configure? && trace[i].Configure?
    && trace[i].profile.maxSteeringDeg < trace[c].profile.maxSteeringDeg
  }

  ghost predicate Explained(trace: seq<Call>, command: Command, within: bool) {
    exists c, j: nat ::
      AppliedUnder(trace, c, j, command) && (within || exists i: nat :: LoweredAt(trace, c, j, i))
  }

  /** The remembered command was applied within the limit of its profile; if it
      exceeds the active limit, that limit was lowered since. */
  ghost predicate SteeringExplained(v: Vehicle) {
    v.lastEffective.Some? && v.active.Some? ==>
      Explained(v.trace, v.lastEffective.value, SteersWithin(v.lastEffective.value, v.active.value.maxSteeringDeg))
  }

  lemma ExplainedLater(trace: seq<Call>, longer: seq<Call>, command: Command, within: bool)
    requires Explained(trace, command, within) && trace <= longer
    ensures Explained(longer, command, within)
  {
    var c, j: nat :|
      AppliedUnder(trace, c, j, command) && (within || exists i: nat :: LoweredAt(trace, c, j, i));
    assert forall m | 0 <= m < |trace| :: longer[m] == trace[m];
    assert AppliedUnder(longer, c, j, command);
    if !within {
      var i: nat :| LoweredAt(trace, c, j, i);
      assert LoweredAt(longer, c, j, i);
    }
  }

  /** A new limit keeps a remembered command explained. */
  lemma NewLimitExplains(trace: seq<Call>, longer: seq<Call>, command: Command, within: bool, p: Profile)
    requires Explained(trace, command, within) && trace < longer
    requires longer[|trace|].Configure? && longer[|trace|].profile == p
    ensures Explained(longer, command, SteersWithin(command, p.maxSteeringDeg))
  {
    var c, j: nat :|
      AppliedUnder(trace, c, j, command) && (within || exists i: nat :: LoweredAt(trace, c, j, i));
    assert forall m | 0 <= m < |trace| :: longer[m] == trace[m];
    assert AppliedUnder(longer, c, j, command);
    if !SteersWithin(command, p.maxSteeringDeg) {
      assert LoweredAt(longer, c, j, |trace|);
    }
  }

  lemma CalmKeepsSteering(v: Vehicle, u: Vehicle)
    requires SteeringExplained(v) && Calm(v, u)
    ensures SteeringExplained(u)
  {
    if u.lastEffective.Some? && u.active.Some? {
      ExplainedLater(
        v.trace, u.trace, v.lastEffective.value,
        SteersWithin(v.lastEffective.value, v.active.value.maxSteeringDeg));
    }
  }

  lemma LimitedSteersWithin(w: World, active: Profile, command: Command)
    requires w.limits.Valid() && active.Valid()
    ensures SteersWithin(Limited(w.limits, Some(active), command), active.maxSteeringDeg)
  {
    var limit := SteeringLimit(w.limits, Some(active));
    assert limit * 30.0 == MinReal(w.limits.maxSteeringDeg, active.maxSteeringDeg) && limit >= 0.0;
  }

  lemma TractionKeepsSteering(w: World, v: Vehicle, command: Command, u: Vehicle)
    requires w.limits.Valid() && Inv(w, v) && SteeringExplained(v) && v.active.Some?
    requires Traction(w, v, Limited(w.limits, v.active, command), u)
    ensures SteeringExplained(u)
  {
    var limited := Limited(w.limits, v.active, command);
    var mid: Vehicle :| Calm(v, mid) && mid.active == v.active && Actuated(w, mid, limited, u);
    CalmKeepsSteering(v, mid);
    if u.lastEffective == mid.lastEffective {
      if u.lastEffective.Some? {
        ExplainedLater(
          mid.trace, u.trace, u.lastEffective.value,
          SteersWithin(u.lastEffective.value, u.active.value.maxSteeringDeg));
      }
    } else {
      CalmKeepsInv(w, v, mid);
      LimitedSteersWithin(w, v.active.value, command);
      var c: nat :| c < |mid.trace| && InstalledAt(w, mid.trace, c, mid.active.value);
      assert forall m | 0 <= m < |mid.trace| :: u.trace[m] == mid.trace[m];
      assert AppliedUnder(u.trace, c, |u.trace| - 1, limited);
    }
  }

  lemma CommandKeepsSteering(w: World, v: Vehicle, command: Command, now: int)
    requires w.limits.Valid() && Inv(w, v) && SteeringExplained(v)
    ensures SteeringExplained(AfterCommand(w, v, command, now).0)
  {
    CommandTraction(w, v, command, now);
    var u := AfterCommand(w, v, command, now).0;
    if Calm(v, u) {
      CalmKeepsSteering(v, u);
    } else {
      TractionKeepsSteering(w, v, command, u);
    }
  }

  lemma InstallKeepsSteering(
    w: World, v: Vehicle, mid: Vehicle, request: ProfileRequest, reapply: bool, u: Vehicle)
    requires Inv(w, v) && SteeringExplained(v)
    requires ProfileInstalledFrom(w, v, mid, request, reapply, u)
    ensures SteeringExplained(u)
  {
    if v.lastEffective.Some? {
      var last := v.lastEffective.value;
      CalmKeepsSteering(v, mid);
      NewLimitExplains(
        mid.trace, u.trace, last, SteersWithin(last, v.active.value.maxSteeringDeg), request.profile);
      SameSteering(u.trace, last, u.lastEffective.value, SteersWithin(last, request.profile.maxSteeringDeg));
    }
  }

  lemma SameSteering(trace: seq<Call>, a: Command, b: Command, within: bool)
    requires a.steering == b.steering && Explained(trace, a, within)
    ensures Explained(trace, b, within)
  {
    var c, j: nat :|
      AppliedUnder(trace, c, j, a) && (within || exists i: nat :: LoweredAt(trace, c, j, i));
    assert AppliedUnder(trace, c, j, b);
  }

  lemma ProfileKeepsSteering(w: World, v: Vehicle, request: ProfileRequest, now: int)
    requires w.limits.Valid() && Inv(w, v) && SteeringExplained(v)
    ensures SteeringExplained(AfterProfile(w, v, request, now).0)
  {
    ProfileOutcome(w, v, request, now);
    var u := AfterProfile(w, v, request, now).0;
    if u == v {
    } else if ProfileAnswered(v, request, u) {
      CalmKeepsSteering(v, u.(lastRequest := v.lastRequest, lastResult := v.lastResult));
    } else {
      var mid, reapply :|
        || ProfileInstalledFrom(w, v, mid, request, reapply, u)
        || ProfileFailedFrom(w, v, mid, request, reapply, u);
      if ProfileInstalledFrom(w, v, mid, request, reapply, u) {
        InstallKeepsSteering(w, v, mid, request, reapply, u);
      }
    }
  }

  lemma StepKeepsSteering(w: World, v: Vehicle, op: Op)
    requires w.limits.Valid() && Inv(w, v) && SteeringExplained(v)
    ensures SteeringExplained(Step(w, v, op))
  {
    match op
    case StartOp =>
    case CommandOp(command, at) => CommandKeepsSteering(w, v, command, at);
    case ProfileOp(request, at) => ProfileKeepsSteering(w, v, request, at);
    case CloseOp(source, reason) =>
      CloseIsCalm(w, v, source, reason);
      CalmKeepsSteering(v, AfterClose(w, v, source, reason).0.(started := v.started));
    case _ =>
      OtherStepsAreCalm(w, v, op);
      CalmKeepsSteering(v, Step(w, v, op));
  }

  lemma {:induction false} RunKeepsSteering(w: World, ops: seq<Op>)
    requires w.limits.Valid()
    ensures SteeringExplained(Run(w, ops))
  {
    if ops != [] {
      var front := ops[..|ops| - 1];
      RunKeepsSteering(w, front);
      InvHolds(w, front);
      StepKeepsSteering(w, Run(w, front), ops[|ops| - 1]);
    }
  }

  /** Since a traction call with this steering was within the limit then in force, a
      profile with a lower limit was configured. */
  ghost predicate LoweredSince(trace: seq<Call>, command: Command) {
    exists c, j, i: nat :: AppliedUnder(trace, c, j, command) && LoweredAt(trace, c, j, i)
  }

  /** Main result: in every run a re-applied command exceeds the steering limit of
      its profile only if a lower limit was configured since that steering was
      applied within its own. */
  lemma ExceedsOnlyAfterLowering(
    w: World, ops: seq<Op>, v: Vehicle, request: ProfileRequest, now: int, u: Vehicle, k: nat)
    requires w.limits.Valid() && v == Run(w, ops) && u == AfterProfile(w, v, request, now).0
    requires |v.trace| <= k < |u.trace| && u.trace[k].ApplyControl?
    requires !SteersWithin(u.trace[k].command, request.profile.maxSteeringDeg)
    ensures LoweredSince(v.trace, u.trace[k].command)
  {
    InvHolds(w, ops);
    RunKeepsSteering(w, ops);
    ProfileApplies(w, v, request, now, k);
    var last := v.lastEffective.value;
    var c, j: nat :| AppliedUnder(v.trace, c, j, last) && exists i: nat :: LoweredAt(v.trace, c, j, i);
    var i: nat :| LoweredAt(v.trace, c, j, i);
    assert AppliedUnder(v.trace, c, j, u.trace[k].command);
  }
}
