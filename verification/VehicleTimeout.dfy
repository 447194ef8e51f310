/** What the control watchdog guarantees over whole runs, for every adapter. */
module VehicleTimeout {
  import opened ControlTypes
  import opened VehicleService
  import opened VehicleRuns
  import S = Safety

  /** No traction can follow before the machine is re-armed: it is latched, or it
      timed out and, at `now`, the last valid command is still too old. */
  predicate Barred(w: World, v: Vehicle, now: int) {
    || v.machine.Latched()
    || (v.machine.state == S.TimeoutBrake
        && v.machine.lastReceive.Some?
        && now - v.machine.lastReceive.value >= w.limits.safety.timeoutMs)
  }

  /** The two ways out of a timeout. */
  predicate Rearms(w: World, v: Vehicle, op: Op) {
    GrantedHandshake(w, v, op) || ReleasedReset(w, v, op)
  }

  // ---------------------------------------------------------------------
  // How one step moves the machine
  // ---------------------------------------------------------------------

  lemma ForwardingMachine(w: World, v: Vehicle, command: Command, now: int, warnings: seq<Cause>)
    requires !command.estop
    ensures var u := AfterForwarding(w, v, command, now, warnings).0;
      u.machine == v.machine || u.machine.state in {S.Fault, S.ControlActive} || v.machine.Latched()
  {
    RefreshIsCalm(w, v.Ask(PollFeedback));
  }

  lemma CommandMachine(w: World, v: Vehicle, command: Command, now: int)
    ensures var u := AfterCommand(w, v, command, now).0;
      || u.machine == v.machine
      || u.machine == v.machine.Tick(w.limits.safety, now)
      || u.machine.state in {S.Fault, S.Estop, S.ControlActive}
  {
    var op := CommandOp(command, now);
    if AcceptedEstop(w, v, op) {
      EstopAlwaysLatches(w, v, op);
    } else if v.started {
      var (v1, verdict) := AfterAdmission(w, v, command, now);
      WatchdogIsCalm(w, v, now);
      WatchdogIsCalm(w, v.(cursor := v.cursor.Accept(w.limits.receiver, command, now).0), now);
      assert v1.machine == v.machine.Tick(w.limits.safety, now) || v1.machine == v.machine;
      if verdict.Returned? && verdict.value.accepted && v1.active.Some? {
        ForwardingMachine(
          w, v1, Limited(w.limits, v1.active, command), now,
          verdict.value.warnings + LimitWarnings(w.limits, v1.active, command));
      }
    }
  }

  lemma TickMachine(w: World, v: Vehicle, now: int)
    ensures var u := AfterTick(w, v, now).0;
      || u.machine == v.machine
      || u.machine == v.machine.Tick(w.limits.safety, now)
      || u.machine.state == S.Fault
  {
    RefreshIsCalm(w, v.Ask(PollFeedback));
  }

  /** Staying in the timeout state keeps both its clocks; entering it means that
      the operation's own time was late enough, and that time is remembered. */
  lemma TimeoutStep(w: World, v: Vehicle, op: Op)
    requires Step(w, v, op).machine.state == S.TimeoutBrake
    ensures var m := Step(w, v, op).machine;
      if v.machine.state == S.TimeoutBrake then
        m.lastReceive == v.machine.lastReceive && m.timeoutEntered == v.machine.timeoutEntered
      else
        && op.Timed() && m.lastReceive.Some?
        && op.at - m.lastReceive.value >= w.limits.safety.timeoutMs
        && m.timeoutEntered == Some(op.at)
  {
    match op
    case CommandOp(command, at) => CommandMachine(w, v, command, at);
    case TickOp(at) => TickMachine(w, v, at);
    case ProfileOp(request, at) => ProfileKeepsMachine(w, v, request, at);
    case ResetOp(confirmed, authorizedBy) => ResetMachine(w, v, confirmed, authorizedBy);
    case _ =>
  }

  // ---------------------------------------------------------------------
  // Barred states stay barred and quiet
  // ---------------------------------------------------------------------

  ghost predicate NoNewTraction(v: Vehicle, u: Vehicle) {
    v.trace <= u.trace && forall k | |v.trace| <= k < |u.trace| :: !u.trace[k].ApplyControl?
  }

  lemma BarredCommand(w: World, v: Vehicle, command: Command, at: int, now: int)
    requires Barred(w, v, now) && at >= now
    ensures NoNewTraction(v, AfterCommand(w, v, command, at).0)
    ensures Barred(w, AfterCommand(w, v, command, at).0, now)
  {
    CommandTraction(w, v, command, at);
    assert v.machine.Tick(w.limits.safety, at) == v.machine;
    assert !CommandJustified(w, v, command, at);
    var op := CommandOp(command, at);
    if AcceptedEstop(w, v, op) {
      EstopAlwaysLatches(w, v, op);
    } else if v.started {
      WatchdogIsCalm(w, v, at);
      WatchdogIsCalm(w, v.(cursor := v.cursor.Accept(w.limits.receiver, command, at).0), at);
      var v1 := AfterAdmission(w, v, command, at).0;
      assert v1.machine == v.machine;
    }
  }

  lemma BarredProfile(w: World, v: Vehicle, request: ProfileRequest, at: int, now: int)
    requires Barred(w, v, now)
    ensures NoNewTraction(v, AfterProfile(w, v, request, at).0)
    ensures Barred(w, AfterProfile(w, v, request, at).0, now)
  {
    var u := AfterProfile(w, v, request, at).0;
    ProfileKeepsMachine(w, v, request, at);
    ProfileOutcome(w, v, request, at);
    if u != v && !ProfileAnswered(v, request, u) {
      var mid, reapply :|
        || ProfileInstalledFrom(w, v, mid, request, reapply, u)
        || ProfileFailedFrom(w, v, mid, request, reapply, u);
      forall k | |v.trace| <= k < |u.trace| ensures !u.trace[k].ApplyControl? {
        if u.trace[k].ApplyControl? {
          InstallAppliesLast(w, v, mid, request, reapply, u, k);
        }
      }
    }
  }

  lemma BarredStep(w: World, v: Vehicle, op: Op, now: int)
    requires Barred(w, v, now) && (op.Timed() ==> op.at >= now)
    requires !Rearms(w, v, op)
    ensures NoNewTraction(v, Step(w, v, op))
    ensures Barred(w, Step(w, v, op), now)
  {
    match op
    case CommandOp(command, at) => BarredCommand(w, v, command, at, now);
    case ProfileOp(request, at) => BarredProfile(w, v, request, at, now);
    case TickOp(at) =>
      TickIsCalm(w, v, at);
      TickMachine(w, v, at);
    case ResetOp(confirmed, authorizedBy) =>
      ResetIsCalm(w, v, confirmed, authorizedBy);
      ResetMachine(w, v, confirmed, authorizedBy);
    case CloseOp(source, reason) => CloseIsCalm(w, v, source, reason);
    case _ =>
  }

  lemma NoNewTractionTrans(a: Vehicle, b: Vehicle, c: Vehicle)
    requires NoNewTraction(a, b) && NoNewTraction(b, c)
    ensures NoNewTraction(a, c)
  {
    forall k | |a.trace| <= k < |c.trace| ensures !c.trace[k].ApplyControl? {
      if k < |b.trace| {
        assert c.trace[k] == b.trace[k];
      }
    }
  }

  /** The `j`th operation is not early and does not rearm. */
  predicate Quiet(w: World, ops: seq<Op>, now: int, j: nat)
    requires j < |ops|
  {
    (ops[j].Timed() ==> ops[j].at >= now) && !Rearms(w, Run(w, ops[..j]), ops[j])
  }

  lemma QuietBefore(w: World, ops: seq<Op>, now: int, n: nat, j: nat)
    requires j < n <= |ops| && Quiet(w, ops, now, j)
    ensures Quiet(w, ops[..n], now, j)
  {
    assert ops[..n][..j] == ops[..j];
  }

  lemma {:induction false} BarredRun(w: World, ops: seq<Op>, i: nat, now: int)
    requires i <= |ops| && Barred(w, Run(w, ops[..i]), now)
    requires forall j | i <= j < |ops| :: Quiet(w, ops, now, j)
    ensures NoNewTraction(Run(w, ops[..i]), Run(w, ops))
    ensures Barred(w, Run(w, ops), now)
  {
    if i == |ops| {
      assert ops[..i] == ops;
    } else {
      var n := |ops| - 1;
      var front := ops[..n];
      assert front[..i] == ops[..i];
      forall j | i <= j < |front| ensures Quiet(w, front, now, j) {
        QuietBefore(w, ops, now, n, j);
      }
      BarredRun(w, front, i, now);
      var v := Run(w, front);
      assert Quiet(w, ops, now, n);
      BarredStep(w, v, ops[n], now);
      NoNewTractionTrans(Run(w, ops[..i]), v, Run(w, ops));
    }
  }

  // ---------------------------------------------------------------------
  // The timeout over whole runs
  // ---------------------------------------------------------------------

  /** In every run the timeout state was entered by an operation whose time was
      late enough. */
  lemma {:induction false} TimeoutWasDue(w: World, ops: seq<Op>) returns (j: nat)
    requires Run(w, ops).machine.state == S.TimeoutBrake
    ensures j < |ops| && ops[j].Timed()
    ensures var m := Run(w, ops).machine;
      && m.lastReceive.Some? && ops[j].at - m.lastReceive.value >= w.limits.safety.timeoutMs
      && m.timeoutEntered == Some(ops[j].at)
  {
    var n := |ops| - 1;
    TimeoutStep(w, Run(w, ops[..n]), ops[n]);
    if Run(w, ops[..n]).machine.state == S.TimeoutBrake {
      j := TimeoutWasDue(w, ops[..n]);
    } else {
      j := n;
    }
  }

  /** Main result: with a clock that never runs backwards, once the watchdog has
      entered the timeout state no traction call follows, whatever arrives and
      whatever the adapter answers, until a handshake is granted or a latched
      ESTOP is reset locally. */
  lemma NoTractionAfterTimeout(w: World, ops: seq<Op>, i: nat)
    requires Monotone(ops) && i <= |ops|
    requires Run(w, ops[..i]).machine.state == S.TimeoutBrake
    requires forall j | i <= j < |ops| :: !Rearms(w, Run(w, ops[..j]), ops[j])
    ensures NoNewTraction(Run(w, ops[..i]), Run(w, ops))
    ensures Run(w, ops).machine.state in {S.TimeoutBrake, S.Estop, S.Fault}
  {
    var entered := TimeoutWasDue(w, ops[..i]);
    forall j | i <= j < |ops| ensures Quiet(w, ops, ops[entered].at, j) {
    }
    BarredRun(w, ops, i, ops[entered].at);
  }

  lemma {:induction false} TimeoutClockKept(w: World, ops: seq<Op>, i: nat)
    requires i <= |ops|
    requires forall m | i <= m <= |ops| :: Run(w, ops[..m]).machine.state == S.TimeoutBrake
    ensures Run(w, ops).machine.timeoutEntered == Run(w, ops[..i]).machine.timeoutEntered
  {
    assert ops[..|ops|] == ops;
    if i < |ops| {
      var n := |ops| - 1;
      assert forall m | i <= m <= n :: ops[..n][..m] == ops[..m];
      TimeoutClockKept(w, ops[..n], i);
      TimeoutStep(w, Run(w, ops[..n]), ops[n]);
    }
  }

  lemma OutputNeverWeakens(config: S.Config, before: S.Machine, after: S.Machine, early: int, late: int)
    requires config.Valid() && early <= late
    requires before.state == S.TimeoutBrake && after.state == S.TimeoutBrake
    requires before.timeoutEntered.Some? && before.timeoutEntered == after.timeoutEntered
    ensures before.Output(config, early).brake <= after.Output(config, late).brake
  {
    S.BrakeNeverWeakens(config.profile, before.TimeoutElapsed(early), after.TimeoutElapsed(late));
  }

  lemma OutputEndsInFullBrake(config: S.Config, m: S.Machine, now: int)
    requires config.Valid() && m.state == S.TimeoutBrake
    requires m.TimeoutElapsed(now) >= config.profile[|config.profile| - 1].afterMs
    ensures m.Output(config, now).brake == 1.0 && m.Output(config, now).fullEmergencyBrake
  {
  }

  /** Main result: while the vehicle stays in the timeout state the brake it asks
      for never weakens, and from the last configured stage on it is exactly full
      and flagged as an emergency brake. Traction and steering are always zero. */
  lemma {:induction false} TimeoutBrakeNeverWeakens(w: World, ops: seq<Op>, i: nat, early: int, late: int)
    requires w.limits.Valid() && i <= |ops| && early <= late
    requires forall m | i <= m <= |ops| :: Run(w, ops[..m]).machine.state == S.TimeoutBrake
    ensures var config := w.limits.safety;
      var before := Run(w, ops[..i]).machine;
      var after := Run(w, ops).machine;
      && before.Output(config, early).brake <= after.Output(config, late).brake
      && after.Output(config, late).throttle == 0.0 && after.Output(config, late).steering == 0.0
      && (after.TimeoutElapsed(late) >= config.profile[|config.profile| - 1].afterMs ==>
            after.Output(config, late).brake == 1.0 && after.Output(config, late).fullEmergencyBrake)
  {
    assert ops[..|ops|] == ops;
    TimeoutClockKept(w, ops, i);
    var _ := TimeoutWasDue(w, ops);
    OutputNeverWeakens(w.limits.safety, Run(w, ops[..i]).machine, Run(w, ops).machine, early, late);
    var config := w.limits.safety;
    var after := Run(w, ops).machine;
    assert config.Valid();
    if after.TimeoutElapsed(late) >= config.profile[|config.profile| - 1].afterMs {
      OutputEndsInFullBrake(config, after, late);
    }
  }
}
