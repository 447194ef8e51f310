/** From the page to the wheels: the intent store, the native sender, a network
    that may delay, drop, repeat and reorder, and the vehicle service. All parts
    read one clock, and a sample is stamped when it is taken. */
module EndToEnd {
  import opened ControlTypes
  import opened VehicleService
  import I = IntentStore
  import VR = VehicleRuns

  /** The session the sender stamps on its commands. */
  datatype Session = Session(vehicle: string, driver: string, session: string, token: string)

  /** The command made from an active sample. */
  function CommandFrom(who: Session, sample: I.Sample, number: nat, now: int): Command {
    Command(
      Metadata(PROTOCOL_VERSION, who.vehicle, who.driver, who.session, number, now),
      who.token, sample.intent.gear, sample.intent.steering, sample.intent.throttle, sample.intent.brake,
      sample.intent.estop,
      sample.current && !sample.requiresFresh && !sample.intent.estop && !sample.intent.Neutral())
  }

  datatype Sender = Sender(store: I.Store, number: nat)

  /** What becomes of a command on its way out: it is sent, it is not even tried
      because the connection is being set up again, or trying fails, after the
      command may have left all the same. */
  datatype Link = Through | Skipped | Failing(left: bool)

  /** The circumstances of one sample: whether there is a session, whether another
      one replaces it meanwhile, when the control lease runs out, and the link. */
  datatype Moment = Moment(present: bool, replaced: bool, expiresAt: int, link: Link)

  /** One sample of the sender: nothing is sent without input or session, after the
      control lease has run out, or when the command would be malformed. A failure
      in the same session withholds the input until a fresh neutral one. */
  function Send(lease: int, who: Session, s: Sender, m: Moment, now: int): (Sender, Option<Command>) {
    var (store, sample) := I.TakeSample(lease, s.store, now);
    if sample.None? || !sample.value.active || !m.present then (Sender(store, s.number), None)
    else
      var command := CommandFrom(who, sample.value, s.number + 1, now);
      var ready := now < m.expiresAt && command.Valid();
      if m.replaced then (Sender(store, s.number + 1), None)
      else if ready && !m.link.Failing? then
        (Sender(store, s.number + 1), if m.link.Through? then Some(command) else None)
      else
        (Sender(store.(requiresFresh := true), s.number + 1),
         if ready && m.link.left then Some(command) else None)
  }

  class NativeControlSender {
    const who: Session
    const store: I.NativeControlIntentStore
    var number: nat

    ghost function View(): Sender
      reads this, store
    {
      Sender(store.View(), number)
    }

    constructor (who: Session, store: I.NativeControlIntentStore)
      ensures this.who == who && this.store == store && number == 0
    {
      this.who := who;
      this.store := store;
      number := 0;
    }

    method SendSample(m: Moment, now: int) returns (sent: Option<Command>)
      modifies this, store
      ensures (View(), sent) == Send(store.leaseMs, who, old(View()), m, now)
    {
      var sample := store.SampleIntent(now);
      if sample.None? || !sample.value.active {
        return None;
      }
      if !m.present {
        return None;
      }
      number := number + 1;
      if now >= m.expiresAt {
        NoteFailure(m.replaced);
        return None;
      }
      var intent := sample.value.intent;
      var active :=
        sample.value.current && !sample.value.requiresFresh && !intent.estop && !intent.Neutral();
      var command := Command(
        Metadata(PROTOCOL_VERSION, who.vehicle, who.driver, who.session, number, now),
        who.token, intent.gear, intent.steering, intent.throttle, intent.brake, intent.estop, active);
      if !command.Valid() {
        NoteFailure(m.replaced);
        return None;
      }
      if m.replaced || m.link.Skipped? {
        return None;
      }
      if m.link.Failing? {
        NoteFailure(m.replaced);
        return if m.link.left then Some(command) else None;
      }
      return Some(command);
    }

    /** A failure of a session that was replaced meanwhile is of no interest. */
    method NoteFailure(replaced: bool)
      modifies store
      ensures store.View() == old(store.View()).(requiresFresh := !replaced || old(store.View()).requiresFresh)
    {
      if !replaced {
        store.Invalidate();
      }
    }
  }

  // ---------------------------------------------------------------------
  // The composed system
  // ---------------------------------------------------------------------

  datatype System = System(sender: Sender, sent: seq<Command>, vehicle: Vehicle)

  datatype Op =
    | PageInput(intent: I.Intent, at: int)
    | SendSample(moment: Moment, at: int)
    | TransportFailure
    | NewSession
    | AtVehicle(op: VR.Op)

  function Step(w: World, lease: int, who: Session, s: System, op: Op): System {
    match op
    case PageInput(intent, at) =>
      s.(sender := s.sender.(store := I.Update(s.sender.store, intent, at).0))
    case SendSample(moment, at) =>
      var (sender, command) := Send(lease, who, s.sender, moment, at);
      System(sender, if command.Some? then s.sent + [command.value] else s.sent, s.vehicle)
    case TransportFailure =>
      s.(sender := s.sender.(store := s.sender.store.(requiresFresh := true)))
    case NewSession =>
      s.(sender := Sender(I.EMPTY, 0))
    case AtVehicle(vop) =>
      s.(vehicle := VR.Step(w, s.vehicle, vop))
  }

  function Run(w: World, lease: int, who: Session, ops: seq<Op>): System {
    if ops == [] then System(Sender(I.EMPTY, 0), [], NEW_VEHICLE)
    else Step(w, lease, who, Run(w, lease, who, ops[..|ops| - 1]), ops[|ops| - 1])
  }

  /** The network may deliver anything the sender ever sent, any number of times,
      in any order, at any later time; it makes no commands up. */
  ghost predicate Authentic(w: World, lease: int, who: Session, ops: seq<Op>) {
    forall j | 0 <= j < |ops| && ops[j].AtVehicle? && ops[j].op.CommandOp? ::
      ops[j].op.command in Run(w, lease, who, ops[..j]).sent
  }

  /** The k-th operation is an accepted page input. */
  predicate AcceptedInput(w: World, lease: int, who: Session, ops: seq<Op>, k: nat) {
    && k < |ops| && ops[k].PageInput?
    && var result := I.Update(Run(w, lease, who, ops[..k]).sender.store, ops[k].intent, ops[k].at).1;
       result.Some? && result.value.accepted
  }

  /** Traction in `command` can be traced to an accepted page input that was not
      yet `lease` old when the command was stamped. */
  ghost predicate Traced(w: World, lease: int, who: Session, ops: seq<Op>, command: Command) {
    !command.estop && command.throttle > TOLERANCE ==>
      exists k: nat ::
        && AcceptedInput(w, lease, who, ops, k)
        && ops[k].intent.throttle == command.throttle && ops[k].intent.gear == command.gear
        && command.meta.sentAt - ops[k].at < lease
  }

  /** The stored intent is the last accepted page input. */
  ghost predicate StoreTraced(w: World, lease: int, who: Session, ops: seq<Op>, store: I.Store) {
    store.latest.Some? && !store.estopLatched ==>
      exists k: nat ::
        AcceptedInput(w, lease, who, ops, k)
        && ops[k].intent == store.latest.value && ops[k].at == store.receivedAt
  }

  lemma TracedInLongerRun(w: World, lease: int, who: Session, ops: seq<Op>, n: nat)
    requires n <= |ops|
    ensures forall k: nat | AcceptedInput(w, lease, who, ops[..n], k) ::
      AcceptedInput(w, lease, who, ops, k) && ops[..n][k] == ops[k]
  {
    forall k: nat | AcceptedInput(w, lease, who, ops[..n], k)
      ensures AcceptedInput(w, lease, who, ops, k) && ops[..n][k] == ops[k]
    {
      assert ops[..n][..k] == ops[..k];
    }
  }

  /** A sample that asks for traction carries the stored intent, still in its lease. */
  lemma SampleIsFresh(lease: int, store: I.Store, now: int)
    requires lease > 0 && I.TakeSample(lease, store, now).1.Some?
    requires var sample := I.TakeSample(lease, store, now).1.value;
      sample.active && !sample.intent.estop && sample.intent.throttle > TOLERANCE
    ensures store.latest.Some? && !store.estopLatched
    ensures I.TakeSample(lease, store, now).1.value.intent.throttle == store.latest.value.throttle
    ensures I.TakeSample(lease, store, now).1.value.intent.gear == store.latest.value.gear
    ensures !store.latest.value.estop ==> now - store.receivedAt < lease
  {
  }

  lemma {:induction false} StoredEstopLatches(w: World, lease: int, who: Session, ops: seq<Op>)
    ensures var store := Run(w, lease, who, ops).sender.store;
      store.latest.Some? && store.latest.value.estop ==> store.estopLatched
  {
    if ops != [] {
      StoredEstopLatches(w, lease, who, ops[..|ops| - 1]);
    }
  }

  lemma {:induction false} StoreIsTraced(w: World, lease: int, who: Session, ops: seq<Op>)
    ensures StoreTraced(w, lease, who, ops, Run(w, lease, who, ops).sender.store)
  {
    if ops != [] {
      StoreIsTraced(w, lease, who, ops[..|ops| - 1]);
      StoreStep(w, lease, who, ops);
    }
  }

  lemma {:induction false} EverythingTraced(w: World, lease: int, who: Session, ops: seq<Op>)
    requires lease > 0
    ensures forall c | c in Run(w, lease, who, ops).sent :: Traced(w, lease, who, ops, c)
  {
    if ops != [] {
      var n := |ops| - 1;
      EverythingTraced(w, lease, who, ops[..n]);
      forall c | c in Run(w, lease, who, ops).sent ensures Traced(w, lease, who, ops, c) {
        if c in Run(w, lease, who, ops[..n]).sent {
          TracedInLongerRun(w, lease, who, ops, n);
        } else {
          StoredEstopLatches(w, lease, who, ops[..n]);
          StoreIsTraced(w, lease, who, ops[..n]);
          SentIsTraced(w, lease, who, ops);
        }
      }
    }
  }

  /** Only an accepted page input replaces the stored intent. */
  lemma StoreChanges(w: World, lease: int, who: Session, s: System, op: Op)
    ensures var before := s.sender.store;
      var after := Step(w, lease, who, s, op).sender.store;
      || after.latest.None?
      || (after.latest == before.latest && after.receivedAt == before.receivedAt
          && after.estopLatched == before.estopLatched)
      || (&& op.PageInput? && I.Update(before, op.intent, op.at).1.Some?
          && I.Update(before, op.intent, op.at).1.value.accepted
          && after.receivedAt == op.at
          && (!after.estopLatched ==> after.latest == Some(op.intent)))
  {
  }

  lemma StoreStep(w: World, lease: int, who: Session, ops: seq<Op>)
    requires ops != []
    requires StoreTraced(
      w, lease, who, ops[..|ops| - 1], Run(w, lease, who, ops[..|ops| - 1]).sender.store)
    ensures StoreTraced(w, lease, who, ops, Run(w, lease, who, ops).sender.store)
  {
    var n := |ops| - 1;
    var s := Run(w, lease, who, ops[..n]);
    var before := s.sender.store;
    var after := Run(w, lease, who, ops).sender.store;
    StoreChanges(w, lease, who, s, ops[n]);
    if after.latest.Some? && !after.estopLatched {
      if after.latest == before.latest && after.receivedAt == before.receivedAt
        && after.estopLatched == before.estopLatched
      {
        var k: nat :| AcceptedInput(w, lease, who, ops[..n], k)
          && ops[..n][k].intent == before.latest.value && ops[..n][k].at == before.receivedAt;
        TracedInLongerRun(w, lease, who, ops, n);
        assert AcceptedInput(w, lease, who, ops, k);
      } else {
        assert AcceptedInput(w, lease, who, ops, n);
      }
    }
  }

  lemma SentIsTraced(w: World, lease: int, who: Session, ops: seq<Op>)
    requires lease > 0 && ops != [] && ops[|ops| - 1].SendSample?
    requires var s := Run(w, lease, who, ops[..|ops| - 1]);
      && StoreTraced(w, lease, who, ops[..|ops| - 1], s.sender.store)
      && (s.sender.store.latest.Some? && s.sender.store.latest.value.estop ==> s.sender.store.estopLatched)
      && Send(lease, who, s.sender, ops[|ops| - 1].moment, ops[|ops| - 1].at).1.Some?
    ensures var s := Run(w, lease, who, ops[..|ops| - 1]);
      Traced(
        w, lease, who, ops, Send(lease, who, s.sender, ops[|ops| - 1].moment, ops[|ops| - 1].at).1.value)
  {
    var n := |ops| - 1;
    var store := Run(w, lease, who, ops[..n]).sender.store;
    var sample := I.TakeSample(lease, store, ops[n].at).1.value;
    if !sample.intent.estop && sample.intent.throttle > TOLERANCE {
      SampleIsFresh(lease, store, ops[n].at);
      TracedInLongerRun(w, lease, who, ops, n);
    }
  }

  /** What a received command contributes when it is applied. */
  lemma AppliedIsTimely(w: World, v: Vehicle, command: Command, now: int, k: nat)
    requires w.limits.Valid() && VR.Inv(w, v)
    requires var trace := AfterCommand(w, v, command, now).0.trace;
      |v.trace| <= k < |trace| && trace[k].ApplyControl?
    ensures var applied := AfterCommand(w, v, command, now).0.trace[k].command;
      && applied.throttle <= command.throttle && applied.gear == command.gear
    ensures !command.estop && now - command.meta.sentAt <= w.limits.receiver.maxGapMs
  {
    VR.CommandApplies(w, v, command, now, k);
    VR.AppliedCommand(w, v, VR.CommandOp(command, now), AfterCommand(w, v, command, now).0.trace, k);
  }

  /** Main result: whatever the network and the adapter do, traction that the
      vehicle applies on receiving a command at time T goes back to a page input
      accepted after T - (lease + command gap), in the same gear and with at
      least that throttle. */
  lemma NoStaleTraction(w: World, lease: int, who: Session, ops: seq<Op>, j: nat, k: nat)
    requires w.limits.Valid() && lease > 0
    requires Authentic(w, lease, who, ops)
    requires j < |ops| && ops[j].AtVehicle? && ops[j].op.CommandOp?
    requires var before := Run(w, lease, who, ops[..j]).vehicle;
      var after := Run(w, lease, who, ops[..j + 1]).vehicle;
      && |before.trace| <= k < |after.trace|
      && after.trace[k].ApplyControl? && after.trace[k].command.throttle > TOLERANCE
    ensures var applied := Run(w, lease, who, ops[..j + 1]).vehicle.trace[k].command;
      exists i: nat ::
        && i < j && AcceptedInput(w, lease, who, ops, i)
        && ops[j].op.at - ops[i].at < lease + w.limits.receiver.maxGapMs
        && applied.throttle <= ops[i].intent.throttle && applied.gear == ops[i].intent.gear
  {
    var s := Run(w, lease, who, ops[..j]);
    var command := ops[j].op.command;
    assert ops[..j + 1][..j] == ops[..j];
    assert Run(w, lease, who, ops[..j + 1]).vehicle == AfterCommand(w, s.vehicle, command, ops[j].op.at).0;
    VehicleInvariant(w, lease, who, ops[..j]);
    AppliedIsTimely(w, s.vehicle, command, ops[j].op.at, k);
    EverythingTraced(w, lease, who, ops[..j]);
    assert Traced(w, lease, who, ops[..j], command);
    var i: nat :|
      && AcceptedInput(w, lease, who, ops[..j], i)
      && ops[..j][i].intent.throttle == command.throttle && ops[..j][i].intent.gear == command.gear
      && command.meta.sentAt - ops[..j][i].at < lease;
    TracedInLongerRun(w, lease, who, ops, j);
  }

  lemma {:induction false} VehicleInvariant(w: World, lease: int, who: Session, ops: seq<Op>)
    requires w.limits.Valid()
    ensures VR.Inv(w, Run(w, lease, who, ops).vehicle)
  {
    if ops != [] {
      var n := |ops| - 1;
      VehicleInvariant(w, lease, who, ops[..n]);
      if ops[n].AtVehicle? {
        VR.StepKeepsInv(w, Run(w, lease, who, ops[..n]).vehicle, ops[n].op);
      }
    }
  }
}
