/** The signaling service itself: maps updated in place behind one lock, with
    every request proved to be the state change of Cloud. */
module SignalingService {
  import opened ControlTypes
  import opened Mailboxes
  import opened Cloud

  // ---------------------------------------------------------------------
  // One at a time is the same as all at once
  // ---------------------------------------------------------------------

  lemma BelongsInTwo(sessions: map<nat, Session>, done: set<nat>, more: set<nat>, id: nat, who: string)
    ensures Belongs(sessions, done + more, id, who)
      == (Belongs(sessions, done, id, who) || Belongs(EndSessions(sessions, done), more, id, who))
  {
  }

  lemma StreamBelongsInTwo(sessions: map<nat, Session>, done: set<nat>, more: set<nat>, stream: Stream)
    ensures StreamBelongs(sessions, done + more, stream)
      == (StreamBelongs(sessions, done, stream) || StreamBelongs(EndSessions(sessions, done), more, stream))
  {
  }

  lemma OutsideInTwo<V>(entries: map<Key, V>, sessions: map<nat, Session>, done: set<nat>, more: set<nat>)
    ensures Outside(Outside(entries, sessions, done), EndSessions(sessions, done), more)
        == Outside(entries, sessions, done + more)
  {
    forall key: Key
      ensures Belongs(sessions, done + more, key.session, key.who)
        == (Belongs(sessions, done, key.session, key.who)
            || Belongs(EndSessions(sessions, done), more, key.session, key.who))
    {
      BelongsInTwo(sessions, done, more, key.session, key.who);
    }
  }

  lemma StreamsOutsideInTwo<V>(
    entries: map<Stream, V>, sessions: map<nat, Session>, done: set<nat>, more: set<nat>)
    ensures StreamsOutside(StreamsOutside(entries, sessions, done), EndSessions(sessions, done), more)
        == StreamsOutside(entries, sessions, done + more)
  {
    forall stream: Stream
      ensures StreamBelongs(sessions, done + more, stream)
        == (StreamBelongs(sessions, done, stream) || StreamBelongs(EndSessions(sessions, done), more, stream))
    {
      StreamBelongsInTwo(sessions, done, more, stream);
    }
  }

  lemma EraseInTwo(mail: Mail, sessions: map<nat, Session>, done: set<nat>, more: set<nat>)
    ensures EraseMail(EraseMail(mail, sessions, done), EndSessions(sessions, done), more)
        == EraseMail(mail, sessions, done + more)
  {
    OutsideInTwo(mail.queues, sessions, done, more);
    OutsideInTwo(mail.control, sessions, done, more);
    StreamsOutsideInTwo(mail.accepted, sessions, done, more);
    OutsideInTwo(mail.cursors, sessions, done, more);
  }

  lemma CloseOneByOne(s: State, done: set<nat>, more: set<nat>)
    ensures CloseIds(CloseIds(s, done), more) == CloseIds(s, done + more)
  {
    EraseInTwo(s.mail, s.sessions, done, more);
    assert EndSessions(EndSessions(s.sessions, done), more) == EndSessions(s.sessions, done + more);
  }

  lemma CloseNone(s: State)
    ensures CloseIds(s, {}) == s
  {
    assert EndSessions(s.sessions, {}) == s.sessions;
    assert EraseMail(s.mail, s.sessions, {}) == s.mail;
  }

  lemma CloseOne(s: State, id: nat)
    requires id in s.sessions
    ensures var session := s.sessions[id];
      CloseIds(s, {id}) == s.(
        sessions := s.sessions[id := session.Ended()],
        mail := Erase(s.mail, id, session.driver, session.vehicle))
  {
    var session := s.sessions[id];
    assert EndSessions(s.sessions, {id}) == s.sessions[id := session.Ended()];
    assert EraseMail(s.mail, s.sessions, {id}) == Erase(s.mail, id, session.driver, session.vehicle);
  }

  /** Sessions that are already closed have nothing left to open. */
  lemma OpenAfterClosing(s: State, closed: set<nat>, drivers: set<string>, vehicles: set<string>)
    ensures OpenForDrivers(CloseIds(s, closed), drivers) == OpenForDrivers(s, drivers) - closed
    ensures OpenForVehicles(CloseIds(s, closed), vehicles) == OpenForVehicles(s, vehicles) - closed
  {
  }

  lemma DropTokenByToken(s: State, done: set<nat>, token: nat)
    requires token in s.tokens && token !in done
    ensures DropTokens(DropTokens(s, done), {token}) == DropTokens(s, done + {token})
  {
    var mid := DropTokens(s, done);
    var gone, more := DriversOf(s, done), DriversOf(mid, {token});
    assert DriversOf(s, done + {token}) == gone + more;
    assert s.drivers - gone - more == s.drivers - (gone + more);
    assert s.tokens - done - {token} == s.tokens - (done + {token});
    var bare := s.(tokens := s.tokens - (done + {token}), drivers := s.drivers - (gone + more));
    OpenAfterClosing(s, OpenForDrivers(s, gone), more, {});
    CloseOneByOne(bare, OpenForDrivers(s, gone), OpenForDrivers(mid, more));
    assert OpenForDrivers(s, gone) + OpenForDrivers(mid, more) == OpenForDrivers(s, gone + more);
  }

  lemma DropVehicleByVehicle(s: State, done: set<string>, vehicle: string)
    ensures DropVehicles(DropVehicles(s, done), {vehicle}) == DropVehicles(s, done + {vehicle})
  {
    var mid := DropVehicles(s, done);
    assert s.vehicles - done - {vehicle} == s.vehicles - (done + {vehicle});
    var bare := s.(vehicles := s.vehicles - (done + {vehicle}));
    OpenAfterClosing(s, OpenForVehicles(s, done), {}, {vehicle});
    CloseOneByOne(bare, OpenForVehicles(s, done), OpenForVehicles(mid, {vehicle}));
    assert OpenForVehicles(s, done) + OpenForVehicles(mid, {vehicle}) == OpenForVehicles(s, done + {vehicle});
  }

  lemma DropDriverByDriver(s: State, done: set<string>, driver: string)
    requires driver !in done
    ensures DropDrivers(DropDrivers(s, done), {driver}) == DropDrivers(s, done + {driver})
  {
    var mid := DropDrivers(s, done);
    assert s.drivers - done - {driver} == s.drivers - (done + {driver});
    assert TokensOf(s, done + {driver}) == TokensOf(s, done) + TokensOf(mid, {driver});
    assert s.tokens - TokensOf(s, done) - TokensOf(mid, {driver}) == s.tokens - TokensOf(s, done + {driver});
    var bare := s.(tokens := s.tokens - TokensOf(s, done + {driver}), drivers := s.drivers - (done + {driver}));
    OpenAfterClosing(s, OpenForDrivers(s, done), {driver}, {});
    CloseOneByOne(bare, OpenForDrivers(s, done), OpenForDrivers(mid, {driver}));
    assert OpenForDrivers(s, done) + OpenForDrivers(mid, {driver}) == OpenForDrivers(s, done + {driver});
  }

  /** One turn of the loop over the tokens, with `todo` still to look at. */
  lemma TokenStep(s: State, todo: set<nat>, token: nat, now: int)
    requires token in todo && token in s.tokens
    ensures var dead := ExpiredTokens(s, now);
      var mid := DropTokens(s, dead - todo);
      && token in mid.tokens && mid.tokens[token] == s.tokens[token]
      && DropTokens(s, dead - (todo - {token}))
         == if now >= s.tokens[token].expiresAt then DropTokens(mid, {token}) else mid
  {
    var dead := ExpiredTokens(s, now);
    if token in dead {
      DropTokenByToken(s, dead - todo, token);
      assert dead - (todo - {token}) == dead - todo + {token};
    } else {
      assert dead - (todo - {token}) == dead - todo;
    }
  }

  lemma SessionStep(s: State, todo: set<nat>, id: nat, now: int)
    requires id in todo && id in s.sessions
    ensures var dead := ExpiredSessions(s, now);
      var mid := CloseIds(s, dead - todo);
      && id in mid.sessions && mid.sessions[id] == s.sessions[id]
      && CloseIds(s, dead - (todo - {id})) == if id in dead then CloseIds(mid, {id}) else mid
  {
    var dead := ExpiredSessions(s, now);
    CloseOneByOne(s, dead - todo, {id});
    assert dead - (todo - {id}) == if id in dead then dead - todo + {id} else dead - todo;
  }

  lemma VehicleStep(cfg: Config, s: State, todo: set<string>, vehicle: string, now: int)
    requires vehicle in todo && vehicle in s.vehicles
    ensures var gone := SilentVehicles(cfg, s, now);
      var mid := DropVehicles(s, gone - todo);
      && vehicle in mid.vehicles && mid.vehicles[vehicle] == s.vehicles[vehicle]
      && DropVehicles(s, gone - (todo - {vehicle}))
         == if now - s.vehicles[vehicle].lastSeen >= cfg.vehicleTimeoutMs then DropVehicles(mid, {vehicle}) else mid
  {
    var gone := SilentVehicles(cfg, s, now);
    if vehicle in gone {
      DropVehicleByVehicle(s, gone - todo, vehicle);
      assert gone - (todo - {vehicle}) == gone - todo + {vehicle};
    } else {
      assert gone - (todo - {vehicle}) == gone - todo;
    }
  }

  lemma DriverStep(cfg: Config, s: State, todo: set<string>, driver: string, now: int)
    requires driver in todo && driver in s.drivers
    ensures var gone := SilentDrivers(cfg, s, now);
      var mid := DropDrivers(s, gone - todo);
      && driver in mid.drivers && mid.drivers[driver] == s.drivers[driver]
      && DropDrivers(s, gone - (todo - {driver}))
         == if now - s.drivers[driver].lastSeen >= cfg.driverTimeoutMs then DropDrivers(mid, {driver}) else mid
  {
    var gone := SilentDrivers(cfg, s, now);
    if driver in gone {
      DropDriverByDriver(s, gone - todo, driver);
      assert gone - (todo - {driver}) == gone - todo + {driver};
    } else {
      assert gone - (todo - {driver}) == gone - todo;
    }
  }

  lemma DropNothing(s: State)
    ensures DropTokens(s, {}) == s && DropVehicles(s, {}) == s && DropDrivers(s, {}) == s
  {
    CloseNone(s);
    assert s.tokens - {} == s.tokens && s.drivers - {} == s.drivers && s.vehicles - {} == s.vehicles;
    assert DriversOf(s, {}) == {} && TokensOf(s, {}) == {};
    assert OpenForDrivers(s, {}) == {} && OpenForVehicles(s, {}) == {};
  }

  /** The approvals when those of `todo` have not been looked at yet. */
  ghost function PartlyRefreshed(s: State, todo: set<string>, steady: int): map<string, Approval> {
    map v | v in s.approvals :: if v in todo then s.approvals[v] else Refreshed(s, v, s.approvals[v], steady)
  }

  lemma RefreshNext(s: State, todo: set<string>, vehicle: string, steady: int)
    requires vehicle in todo && vehicle in s.approvals
    ensures var now := s.(approvals := PartlyRefreshed(s, todo, steady));
      PartlyRefreshed(s, todo - {vehicle}, steady)
      == now.approvals[vehicle := Refreshed(now, vehicle, now.approvals[vehicle], steady)]
  {
    var now := s.(approvals := PartlyRefreshed(s, todo, steady));
    assert Refreshed(now, vehicle, s.approvals[vehicle], steady) == Refreshed(s, vehicle, s.approvals[vehicle], steady);
  }

  // ---------------------------------------------------------------------
  // The service
  // ---------------------------------------------------------------------

  class SignalingService {
    const cfg: Config
    const mailboxes: SignalingMailboxes
    var tokens: map<nat, DriverToken>
    var drivers: map<string, Presence>
    var vehicles: map<string, Presence>
    var sessions: map<nat, Session>
    var revokedDrivers: set<string>
    var revokedVehicles: set<string>
    var approvals: map<string, Approval>
    var generation: nat
    var lastSession: nat
    var lastSecret: nat
    var log: seq<Event>

    ghost function View(): State
      reads this, mailboxes
    {
      State(tokens, drivers, vehicles, sessions, revokedDrivers, revokedVehicles, approvals,
            generation, lastSession, lastSecret, mailboxes.View(), log)
    }

    ghost predicate Valid()
      reads this, mailboxes
    {
      mailboxes.ttl == cfg.ttl && mailboxes.Tidy()
    }

    constructor (cfg: Config)
      ensures this.cfg == cfg && Valid() && View() == EMPTY && fresh(mailboxes)
    {
      this.cfg := cfg;
      mailboxes := new SignalingMailboxes(cfg.ttl);
      tokens, drivers, vehicles, sessions := map[], map[], map[], map[];
      revokedDrivers, revokedVehicles, approvals := {}, {}, map[];
      generation, lastSession, lastSecret, log := 0, 0, 0, [];
    }

    // -------------------------------------------------------------------
    // Closing sessions
    // -------------------------------------------------------------------

    method CloseSession(id: nat)
      requires Valid() && Open(View(), id)
      modifies this`sessions, mailboxes
      ensures Valid() && View() == CloseIds(old(View()), {id})
    {
      var session := sessions[id];
      CloseOne(View(), id);
      mailboxes.EraseSession(id, session.driver, session.vehicle);
      sessions := sessions[id := session.Ended()];
    }

    method CloseSessionsForDriver(driver: string)
      requires Valid()
      modifies this`sessions, mailboxes
      ensures Valid() && View() == CloseIds(old(View()), OpenForDrivers(old(View()), {driver}))
    {
      ghost var s := View();
      ghost var mine := OpenForDrivers(s, {driver});
      var todo := sessions.Keys;
      CloseNone(s);
      assert mine - todo == {};
      while todo != {}
        invariant Valid() && todo <= s.sessions.Keys
        invariant View() == CloseIds(s, mine - todo)
        decreases |todo|
      {
        var id :| id in todo;
        CloseOneByOne(s, mine - todo, {id});
        assert Open(View(), id) && sessions[id].driver == driver <==> id in mine;
        assert mine - (todo - {id}) == if id in mine then mine - todo + {id} else mine - todo;
        if sessions[id].driver == driver && sessions[id].state != Closed {
          CloseSession(id);
        }
        todo := todo - {id};
      }
      assert mine - {} == mine;
    }

    method CloseSessionsForVehicle(vehicle: string)
      requires Valid()
      modifies this`sessions, mailboxes
      ensures Valid() && View() == CloseIds(old(View()), OpenForVehicles(old(View()), {vehicle}))
    {
      ghost var s := View();
      ghost var mine := OpenForVehicles(s, {vehicle});
      var todo := sessions.Keys;
      CloseNone(s);
      assert mine - todo == {};
      while todo != {}
        invariant Valid() && todo <= s.sessions.Keys
        invariant View() == CloseIds(s, mine - todo)
        decreases |todo|
      {
        var id :| id in todo;
        CloseOneByOne(s, mine - todo, {id});
        assert Open(View(), id) && sessions[id].vehicle == vehicle <==> id in mine;
        assert mine - (todo - {id}) == if id in mine then mine - todo + {id} else mine - todo;
        if sessions[id].vehicle == vehicle && sessions[id].state != Closed {
          CloseSession(id);
        }
        todo := todo - {id};
      }
      assert mine - {} == mine;
    }

    // -------------------------------------------------------------------
    // Cleanup
    // -------------------------------------------------------------------

    method ExpireToken(token: nat)
      requires Valid() && token in tokens
      modifies this`tokens, this`drivers, this`sessions, mailboxes
      ensures Valid() && View() == DropTokens(old(View()), {token})
    {
      ghost var s := View();
      var driver := tokens[token].driver;
      var current := driver in drivers && drivers[driver].generation == tokens[token].generation;
      assert DriversOf(s, {token}) == if current then {driver} else {};
      tokens := tokens - {token};
      if current {
        drivers := drivers - {driver};
        ghost var bare := View();
        CloseSessionsForDriver(driver);
        assert OpenForDrivers(bare, {driver}) == OpenForDrivers(s, {driver});
      } else {
        CloseNone(View());
        assert OpenForDrivers(s, {}) == {} && drivers - {} == drivers;
      }
    }

    method ExpireTokens(now: int)
      requires Valid()
      modifies this`tokens, this`drivers, this`sessions, mailboxes
      ensures Valid() && View() == DropTokens(old(View()), ExpiredTokens(old(View()), now))
    {
      ghost var s := View();
      ghost var dead := ExpiredTokens(s, now);
      var todo := tokens.Keys;
      DropNothing(s);
      assert dead - todo == {};
      while todo != {}
        invariant Valid() && todo <= s.tokens.Keys
        invariant View() == DropTokens(s, dead - todo)
        decreases |todo|
      {
        var token :| token in todo;
        TokenStep(s, todo, token, now);
        if now >= tokens[token].expiresAt {
          ExpireToken(token);
        }
        todo := todo - {token};
      }
      assert dead - {} == dead;
    }

    method ExpireSessions(now: int)
      requires Valid()
      modifies this`sessions, mailboxes
      ensures Valid() && View() == CloseIds(old(View()), ExpiredSessions(old(View()), now))
    {
      ghost var s := View();
      ghost var dead := ExpiredSessions(s, now);
      var todo := sessions.Keys;
      CloseNone(s);
      assert dead - todo == {};
      while todo != {}
        invariant Valid() && todo <= s.sessions.Keys
        invariant View() == CloseIds(s, dead - todo)
        decreases |todo|
      {
        var id :| id in todo;
        SessionStep(s, todo, id, now);
        if sessions[id].state != Closed && sessions[id].expiresAt > 0 && now >= sessions[id].expiresAt {
          CloseSession(id);
        }
        todo := todo - {id};
      }
      assert dead - {} == dead;
    }

    method RemoveVehicle(vehicle: string)
      requires Valid()
      modifies this`vehicles, this`sessions, mailboxes
      ensures Valid() && View() == DropVehicles(old(View()), {vehicle})
    {
      vehicles := vehicles - {vehicle};
      ghost var bare := View();
      CloseSessionsForVehicle(vehicle);
      assert OpenForVehicles(bare, {vehicle}) == OpenForVehicles(old(View()), {vehicle});
    }

    method ExpireVehicles(now: int)
      requires Valid()
      modifies this`vehicles, this`sessions, mailboxes
      ensures Valid() && View() == DropVehicles(old(View()), SilentVehicles(cfg, old(View()), now))
    {
      ghost var s := View();
      ghost var gone := SilentVehicles(cfg, s, now);
      var todo := vehicles.Keys;
      DropNothing(s);
      assert gone - todo == {};
      while todo != {}
        invariant Valid() && todo <= s.vehicles.Keys
        invariant View() == DropVehicles(s, gone - todo)
        decreases |todo|
      {
        var vehicle :| vehicle in todo;
        VehicleStep(cfg, s, todo, vehicle, now);
        if !(now - vehicles[vehicle].lastSeen < cfg.vehicleTimeoutMs) {
          RemoveVehicle(vehicle);
        }
        todo := todo - {vehicle};
      }
      assert gone - {} == gone;
    }

    method RemoveTokens(driver: string, generation: nat)
      modifies this`tokens
      ensures tokens == map t | t in old(tokens)
        && !(old(tokens)[t].driver == driver && old(tokens)[t].generation == generation) :: old(tokens)[t]
    {
      ghost var was := tokens;
      var todo := tokens.Keys;
      while todo != {}
        invariant todo <= tokens.Keys <= was.Keys
        invariant forall t | t in tokens :: tokens[t] == was[t]
        invariant forall t | t in was && t !in todo ::
          t in tokens <==> !(was[t].driver == driver && was[t].generation == generation)
        decreases |todo|
      {
        var token :| token in todo;
        todo := todo - {token};
        if tokens[token].driver == driver && tokens[token].generation == generation {
          tokens := tokens - {token};
        }
      }
    }

    method RemoveDriver(driver: string)
      requires Valid() && driver in drivers
      modifies this`tokens, this`drivers, this`sessions, mailboxes
      ensures Valid() && View() == DropDrivers(old(View()), {driver})
    {
      ghost var s := View();
      var generation := drivers[driver].generation;
      drivers := drivers - {driver};
      RemoveTokens(driver, generation);
      assert tokens == s.tokens - TokensOf(s, {driver});
      ghost var bare := View();
      CloseSessionsForDriver(driver);
      assert OpenForDrivers(bare, {driver}) == OpenForDrivers(s, {driver});
    }

    method ExpireDrivers(now: int)
      requires Valid()
      modifies this`tokens, this`drivers, this`sessions, mailboxes
      ensures Valid() && View() == DropDrivers(old(View()), SilentDrivers(cfg, old(View()), now))
    {
      ghost var s := View();
      ghost var gone := SilentDrivers(cfg, s, now);
      var todo := drivers.Keys;
      DropNothing(s);
      assert gone - todo == {};
      while todo != {}
        invariant Valid() && todo <= s.drivers.Keys
        invariant View() == DropDrivers(s, gone - todo)
        decreases |todo|
      {
        var driver :| driver in todo;
        DriverStep(cfg, s, todo, driver, now);
        if !(now - drivers[driver].lastSeen < cfg.driverTimeoutMs) {
          RemoveDriver(driver);
        }
        todo := todo - {driver};
      }
      assert gone - {} == gone;
    }

    method RefreshApproval(vehicle: string, steady: int)
      requires vehicle in approvals
      modifies this`approvals
      ensures approvals == old(approvals)[
        vehicle := Refreshed(old(View()), vehicle, old(approvals)[vehicle], steady)]
    {
      var a := approvals[vehicle];
      if a.state == Pending || a.state == Approved || a.state == Rejected {
        if a.driver !in drivers || vehicle !in vehicles
          || drivers[a.driver].generation != a.driverGeneration
          || vehicles[vehicle].generation != a.vehicleGeneration
          || a.driver in revokedDrivers || vehicle in revokedVehicles
        {
          approvals := approvals[vehicle := a.(state := Cancelled)];
        } else if steady >= a.deadline {
          approvals := approvals[vehicle := a.(state := Expired)];
        }
      }
    }

    method CleanupMobileApprovals(steady: int)
      modifies this`approvals
      ensures View() == CleanupApprovals(old(View()), steady)
    {
      ghost var s := View();
      var todo := approvals.Keys;
      assert PartlyRefreshed(s, todo, steady) == s.approvals;
      while todo != {}
        invariant todo <= s.approvals.Keys
        invariant View() == s.(approvals := PartlyRefreshed(s, todo, steady))
        decreases |todo|
      {
        var vehicle :| vehicle in todo;
        RefreshNext(s, todo, vehicle, steady);
        RefreshApproval(vehicle, steady);
        todo := todo - {vehicle};
      }
      assert PartlyRefreshed(s, {}, steady) == CleanupApprovals(s, steady).approvals;
    }

    method CleanupExpiredConnections(clock: Clock)
      requires Valid()
      modifies this`tokens, this`drivers, this`vehicles, this`sessions, this`approvals, mailboxes
      ensures Valid() && View() == Cleanup(cfg, old(View()), clock)
    {
      ExpireTokens(clock.wall);
      ExpireSessions(clock.wall);
      ExpireVehicles(clock.wall);
      ExpireDrivers(clock.wall);
      CleanupMobileApprovals(clock.steady);
    }

    // -------------------------------------------------------------------
    // Credentials
    // -------------------------------------------------------------------

    method ValidateDriverToken(driver: string, token: nat, now: int) returns (fault: Option<Reason>)
      modifies this`drivers
      ensures fault == DriverFault(old(View()), driver, token, now)
      ensures View() == if fault.Some? then old(View()) else SeenDriver(old(View()), driver, now)
    {
      if driver in revokedDrivers {
        return Some(DriverRevoked);
      }
      if token == 0 || token !in tokens || tokens[token].driver != driver {
        return Some(InvalidDriverToken);
      }
      if now >= tokens[token].expiresAt {
        return Some(DriverTokenExpired);
      }
      if driver !in drivers || drivers[driver].generation != tokens[token].generation {
        return Some(DriverConnectionReplaced);
      }
      drivers := drivers[driver := drivers[driver].(lastSeen := now)];
      return None;
    }

    method ValidateDeviceToken(vehicle: string, deviceToken: string) returns (fault: Option<Reason>)
      ensures fault == DeviceFault(cfg, View(), vehicle, deviceToken)
    {
      if vehicle in revokedVehicles {
        return Some(VehicleRevoked);
      }
      if deviceToken == "" || vehicle !in cfg.deviceTokens || cfg.deviceTokens[vehicle] != deviceToken {
        return Some(InvalidDeviceToken);
      }
      return None;
    }

    method ValidateVehicleConnection(vehicle: string, deviceToken: string, connected: nat, now: int)
      returns (fault: Option<Reason>)
      modifies this`vehicles
      ensures fault == ConnectionFault(cfg, old(View()), vehicle, deviceToken, connected)
      ensures View() == if fault.Some? then old(View()) else SeenVehicle(old(View()), vehicle, now)
    {
      fault := ValidateDeviceToken(vehicle, deviceToken);
      if fault.Some? {
        return;
      }
      if vehicle !in vehicles {
        return Some(VehicleIsOffline);
      }
      if connected == 0 || vehicles[vehicle].generation != connected {
        return Some(StaleGeneration);
      }
      vehicles := vehicles[vehicle := vehicles[vehicle].(lastSeen := now)];
      return None;
    }

    method ValidateActor(id: nat, actor: string, credential: Credential, now: int) returns (reply: Reply)
      modifies this`drivers, this`vehicles
      ensures (View(), reply) == Authorise(cfg, old(View()), id, actor, credential, now)
    {
      if id !in sessions {
        return Refused(UnknownSession);
      }
      if sessions[id].state != Active {
        return Refused(SessionNotActive);
      }
      var fault: Option<Reason>;
      if actor == sessions[id].driver {
        if !credential.ByDriver? {
          return Refused(InvalidDriverToken);
        }
        fault := ValidateDriverToken(actor, credential.token, now);
      } else if actor == sessions[id].vehicle {
        if !credential.ByVehicle? {
          return Refused(InvalidDeviceToken);
        }
        fault := ValidateVehicleConnection(actor, credential.deviceToken, credential.generation, now);
      } else {
        return Refused(NotAParticipant);
      }
      return if fault.Some? then Refused(fault.value) else Done;
    }

    // -------------------------------------------------------------------
    // Administration and presence
    // -------------------------------------------------------------------

    method HandleDriverRevocation(driver: string) returns (reply: Reply)
      requires Valid()
      modifies this`tokens, this`drivers, this`sessions, this`revokedDrivers, mailboxes
      ensures Valid() && (View(), reply) == AfterDriverRevocation(cfg, old(View()), driver)
    {
      if driver !in cfg.driverPasswords {
        return Refused(UnknownDriver);
      }
      revokedDrivers := revokedDrivers + {driver};
      ghost var revoked := View();
      assert OpenForDrivers(revoked, {driver}) == OpenForDrivers(old(View()), {driver});
      CloseSessionsForDriver(driver);
      drivers := drivers - {driver};
      tokens := map t | t in tokens && tokens[t].driver != driver :: tokens[t];
      assert tokens == old(tokens) - (set t | t in old(tokens) && old(tokens)[t].driver == driver);
      return Done;
    }

    method HandleDriverRestoration(driver: string) returns (reply: Reply)
      modifies this`revokedDrivers
      ensures (View(), reply) == AfterDriverRestoration(cfg, old(View()), driver)
    {
      if driver !in cfg.driverPasswords {
        return Refused(UnknownDriver);
      }
      revokedDrivers := revokedDrivers - {driver};
      return Done;
    }

    method HandleVehicleRevocation(vehicle: string) returns (reply: Reply)
      requires Valid()
      modifies this`vehicles, this`sessions, this`revokedVehicles, mailboxes
      ensures Valid() && (View(), reply) == AfterVehicleRevocation(cfg, old(View()), vehicle)
    {
      if vehicle !in cfg.deviceTokens {
        return Refused(UnknownVehicle);
      }
      revokedVehicles := revokedVehicles + {vehicle};
      ghost var revoked := View();
      assert OpenForVehicles(revoked, {vehicle}) == OpenForVehicles(old(View()), {vehicle});
      CloseSessionsForVehicle(vehicle);
      vehicles := vehicles - {vehicle};
      return Done;
    }

    method HandleVehicleRestoration(vehicle: string) returns (reply: Reply)
      modifies this`revokedVehicles
      ensures (View(), reply) == AfterVehicleRestoration(cfg, old(View()), vehicle)
    {
      if vehicle !in cfg.deviceTokens {
        return Refused(UnknownVehicle);
      }
      revokedVehicles := revokedVehicles - {vehicle};
      return Done;
    }

    method HandleLogin(driver: string, password: string, now: int) returns (reply: Reply)
      modifies this`tokens, this`drivers, this`generation, this`lastSecret
      ensures (View(), reply) == AfterLogin(cfg, old(View()), driver, password, now)
    {
      if driver !in cfg.driverPasswords || cfg.driverPasswords[driver] != password {
        return Refused(InvalidDriverCredentials);
      }
      if driver in revokedDrivers {
        return Refused(DriverRevoked);
      }
      if driver in drivers {
        return Refused(DriverAlreadyOnline);
      }
      generation := generation + 1;
      lastSecret := lastSecret + 1;
      tokens := tokens[lastSecret := DriverToken(driver, now + cfg.tokenTtlMs, generation)];
      drivers := drivers[driver := Presence("", generation, now)];
      return Done;
    }

    method HandleDriverHeartbeat(driver: string, token: nat, now: int) returns (reply: Reply)
      modifies this`drivers
      ensures (View(), reply) == AfterDriverHeartbeat(old(View()), driver, token, now)
    {
      var fault := ValidateDriverToken(driver, token, now);
      return if fault.Some? then Refused(fault.value) else Done;
    }

    method HandleLogout(driver: string, token: nat, now: int) returns (reply: Reply)
      requires Valid()
      modifies this`tokens, this`drivers, this`sessions, mailboxes
      ensures Valid() && (View(), reply) == AfterLogout(old(View()), driver, token, now)
    {
      var fault := ValidateDriverToken(driver, token, now);
      if fault.Some? {
        return Refused(fault.value);
      }
      ghost var seen := View();
      assert OpenForDrivers(seen, {driver}) == OpenForDrivers(old(View()), {driver});
      CloseSessionsForDriver(driver);
      tokens := tokens - {token};
      drivers := drivers - {driver};
      assert drivers == old(drivers) - {driver};
      return Done;
    }

    method HandleVehicleOnline(vehicle: string, deviceToken: string, connection: string, now: int)
      returns (reply: Reply)
      requires Valid()
      modifies this`vehicles, this`sessions, this`generation, mailboxes
      ensures Valid()
      ensures (View(), reply) == AfterVehicleOnline(cfg, old(View()), vehicle, deviceToken, connection, now)
    {
      var fault := ValidateDeviceToken(vehicle, deviceToken);
      if fault.Some? {
        return Refused(fault.value);
      }
      if vehicle in vehicles && vehicles[vehicle].connection == connection {
        vehicles := vehicles[vehicle := vehicles[vehicle].(lastSeen := now)];
        return Done;
      }
      if vehicle in vehicles {
        CloseSessionsForVehicle(vehicle);
      }
      generation := generation + 1;
      vehicles := vehicles[vehicle := Presence(connection, generation, now)];
      return Done;
    }

    method HandleVehicleHeartbeat(vehicle: string, deviceToken: string, connected: nat, now: int)
      returns (reply: Reply)
      modifies this`vehicles
      ensures (View(), reply) == AfterVehicleHeartbeat(cfg, old(View()), vehicle, deviceToken, connected, now)
    {
      var fault := ValidateVehicleConnection(vehicle, deviceToken, connected, now);
      return if fault.Some? then Refused(fault.value) else Done;
    }

    method HandleVehicleOffline(vehicle: string, deviceToken: string, connected: nat, now: int)
      returns (reply: Reply)
      requires Valid()
      modifies this`vehicles, this`sessions, mailboxes
      ensures Valid()
      ensures (View(), reply) == AfterVehicleOffline(cfg, old(View()), vehicle, deviceToken, connected)
    {
      ghost var s := View();
      var fault := ValidateVehicleConnection(vehicle, deviceToken, connected, now);
      if fault.Some? {
        return Refused(fault.value);
      }
      assert OpenForVehicles(SeenVehicle(s, vehicle, now), {vehicle}) == OpenForVehicles(s, {vehicle});
      RemoveVehicle(vehicle);
      assert vehicles == s.vehicles - {vehicle};
      return Done;
    }

    // -------------------------------------------------------------------
    // Sessions and messages
    // -------------------------------------------------------------------

    method HandleSessionEnd(id: nat, actor: string, credential: Credential, now: int) returns (reply: Reply)
      requires Valid()
      modifies this`drivers, this`vehicles, this`sessions, mailboxes
      ensures Valid() && (View(), reply) == AfterSessionEnd(cfg, old(View()), id, actor, credential, now)
    {
      reply := ValidateActor(id, actor, credential, now);
      if reply.Done? {
        CloseSession(id);
      }
    }

    method HandleRenewal(id: nat, actor: string, credential: Credential, now: int) returns (reply: Reply)
      modifies this`drivers, this`vehicles, this`sessions
      ensures (View(), reply) == AfterRenewal(cfg, old(View()), id, actor, credential, now)
    {
      if id in sessions && sessions[id].state == Active && actor == sessions[id].vehicle
        && actor != sessions[id].driver
      {
        return Refused(OnlyTheDriverRenews);
      }
      reply := ValidateActor(id, actor, credential, now);
      if reply.Done? {
        sessions := sessions[id := sessions[id].(expiresAt := now + cfg.controlTokenTtlMs)];
      }
    }

    method HandleMessage(m: Submission, controlToken: nat, credential: Credential, now: int, monotonic: int)
      returns (reply: Reply)
      requires Valid()
      modifies this`drivers, this`vehicles, mailboxes
      ensures Valid()
      ensures (View(), reply) == AfterMessage(cfg, old(View()), m, controlToken, credential, now, monotonic)
    {
      reply := ValidateActor(m.session, m.sender, credential, now);
      if reply.Refused? {
        return;
      }
      var session := sessions[m.session];
      if m.recipient != session.driver && m.recipient != session.vehicle {
        return Refused(RecipientNotAParticipant);
      }
      if m.sender == m.recipient {
        return Refused(RecipientIsSender);
      }
      if !RouteAllowed(m.kind, m.sender == session.driver && m.recipient == session.vehicle) {
        return Refused(InvalidRoute);
      }
      if m.kind == ControlCommand && controlToken != session.token {
        return Refused(WrongControlToken);
      }
      var receipt := mailboxes.Submit(m, monotonic);
      return if receipt.Acknowledged? then Done else Refused(SequenceConflict);
    }

    method HandleReading(
      id: nat, actor: string, credential: Credential, controlOnly: bool, now: int, monotonic: int)
      returns (reply: Reply, values: seq<Message>)
      requires Valid()
      modifies this`drivers, this`vehicles, mailboxes
      ensures Valid()
      ensures (View(), reply) == AfterReading(cfg, old(View()), id, actor, credential, controlOnly, now, monotonic)
      ensures values == if reply.Done?
        then Take(old(mailboxes.View()), Key(id, actor), controlOnly, monotonic, cfg.ttl).1 else []
    {
      values := [];
      reply := ValidateActor(id, actor, credential, now);
      if reply.Done? {
        values := mailboxes.ReadForPush(Key(id, actor), controlOnly, monotonic);
      }
    }

    method HandleAcknowledgement(
      id: nat, actor: string, credential: Credential, cursor: nat, controlOnly: bool, now: int)
      returns (reply: Reply)
      requires Valid()
      modifies this`drivers, this`vehicles, mailboxes
      ensures Valid()
      ensures (View(), reply)
        == AfterAcknowledgement(cfg, old(View()), id, actor, credential, cursor, controlOnly, now)
    {
      reply := ValidateActor(id, actor, credential, now);
      if reply.Done? {
        var count := mailboxes.AcknowledgeDelivery(Key(id, actor), cursor, controlOnly);
      }
    }

    // -------------------------------------------------------------------
    // Approvals and new sessions
    // -------------------------------------------------------------------

    method HandleDecision(
      vehicle: string, request: nat, approve: bool, approver: string, audited: bool, steady: int)
      returns (reply: Reply)
      modifies this`approvals, this`log
      ensures (View(), reply)
        == AfterDecision(cfg, old(View()), vehicle, request, approve, approver, audited, steady)
    {
      CleanupMobileApprovals(steady);
      if vehicle !in approvals || approvals[vehicle].id != request || vehicle !in cfg.approvalVehicles {
        return Refused(UnknownRequest);
      }
      var a := approvals[vehicle];
      var next := if approve then Approved else Rejected;
      if a.state == next && a.decidedBy == approver {
        return Done;
      }
      if a.state != Pending {
        return Refused(ApprovalNotPending);
      }
      if !audited {
        return Refused(DecisionNotSaved);
      }
      log := log + [Decided(request, approve, approver, steady)];
      approvals := approvals[vehicle := a.(state := next, decidedBy := approver)];
      return Done;
    }

    method RequireMobileApproval(driver: string, vehicle: string, request: nat, audited: bool, steady: int)
      returns (reply: Reply)
      requires driver in drivers && vehicle in vehicles
      modifies this`approvals, this`lastSecret, this`log
      ensures (View(), reply) == RequireApproval(cfg, old(View()), driver, vehicle, request, audited, steady)
    {
      if vehicle !in cfg.approvalVehicles {
        return if request != 0 then Refused(ApprovalStale) else Done;
      }
      CleanupMobileApprovals(steady);
      if request != 0 {
        if vehicle !in approvals || approvals[vehicle].id != request || approvals[vehicle].driver != driver {
          return Refused(ApprovalStale);
        }
        if !approvals[vehicle].Live() {
          return Refused(ApprovalEnded);
        }
      }
      if vehicle in approvals {
        var a := approvals[vehicle];
        var live := a.Live();
        if live && a.driver != driver {
          return Refused(ApprovalBusy);
        }
        if live && a.state == Approved {
          return Done;
        }
        if live && a.state == Rejected {
          return Refused(ApprovalRejected);
        }
        if live {
          return Refused(ApprovalPending);
        }
      }
      reply := RequestMobileApproval(driver, vehicle, audited, steady);
    }

    method RequestMobileApproval(driver: string, vehicle: string, audited: bool, steady: int)
      returns (reply: Reply)
      requires driver in drivers && vehicle in vehicles
      modifies this`approvals, this`lastSecret, this`log
      ensures (View(), reply) == AfterRequest(cfg, old(View()), driver, vehicle, audited, steady)
    {
      if !audited {
        return Refused(RequestNotSaved);
      }
      lastSecret := lastSecret + 1;
      var a := Approval(
        lastSecret, driver, Pending, "", drivers[driver].generation, vehicles[vehicle].generation,
        steady + cfg.approvalTimeoutMs, 0);
      log := log + [Requested(a.id, driver, vehicle, a.driverGeneration, a.vehicleGeneration, a.deadline)];
      approvals := approvals[vehicle := a];
      return Refused(ApprovalPending);
    }

    method SpendApproval(vehicle: string) returns (spent: nat)
      requires vehicle in cfg.approvalVehicles ==> vehicle in approvals
      modifies this`approvals
      ensures if vehicle in cfg.approvalVehicles
        then spent == old(approvals)[vehicle].id
          && approvals == old(approvals)[vehicle := old(approvals)[vehicle].(state := Consumed)]
        else spent == 0 && approvals == old(approvals)
    {
      spent := 0;
      if vehicle in cfg.approvalVehicles {
        spent := approvals[vehicle].id;
        approvals := approvals[vehicle := approvals[vehicle].(state := Consumed)];
      }
    }

    /** The vehicle's approval is spent before the session exists and learns the
        session's number after. */
    method StoreSession(driver: string, vehicle: string, now: int, steady: int) returns (ghost session: Session)
      requires driver in drivers && vehicle in vehicles
      requires vehicle in cfg.approvalVehicles ==> vehicle in approvals
      modifies this`sessions, this`approvals, this`lastSession, this`lastSecret, this`log
      ensures session == Session(driver, vehicle, Active, old(lastSecret) + 1, now + cfg.controlTokenTtlMs)
      ensures View() == WithSession(cfg, old(View()), session, steady)
    {
      var spent := SpendApproval(vehicle);
      lastSession := lastSession + 1;
      lastSecret := lastSecret + 1;
      var stored := Session(driver, vehicle, Active, lastSecret, now + cfg.controlTokenTtlMs);
      session := stored;
      sessions := sessions[lastSession := stored];
      if vehicle in cfg.approvalVehicles {
        approvals := approvals[vehicle := approvals[vehicle].(session := lastSession)];
      }
      assert approvals == WithSession(cfg, old(View()), session, steady).approvals;
      log := log + [Created(
        lastSession, spent, driver, vehicle, drivers[driver].generation, vehicles[vehicle].generation, steady)];
    }

    method GrantSession(driver: string, vehicle: string, audits: Audits, now: int, steady: int)
      returns (reply: Reply)
      requires Valid() && driver in drivers && vehicle in vehicles
      requires vehicle in cfg.approvalVehicles ==> vehicle in approvals
      modifies this`sessions, this`approvals, this`lastSession, this`lastSecret, this`log, mailboxes
      ensures Valid() && (View(), reply) == AfterGrant(cfg, old(View()), driver, vehicle, audits, now, steady)
    {
      ghost var session := StoreSession(driver, vehicle, now, steady);
      if !audits.created {
        sessions := sessions[lastSession := sessions[lastSession].(state := Closed)];
        assert sessions == old(sessions)[lastSession := session.(state := Closed)];
        return Refused(AuthorityNotGranted);
      }
      if !audits.granted {
        CloseSession(lastSession);
        return Refused(AuthorityNotGranted);
      }
      return Done;
    }

    method IsVehicleTaken(vehicle: string) returns (taken: bool)
      ensures taken == (OpenForVehicles(View(), {vehicle}) != {})
    {
      var todo := sessions.Keys;
      while todo != {}
        invariant todo <= sessions.Keys
        invariant forall id | id in sessions && id !in todo ::
          !(sessions[id].vehicle == vehicle && sessions[id].state != Closed)
        decreases |todo|
      {
        var id :| id in todo;
        if sessions[id].vehicle == vehicle && sessions[id].state != Closed {
          assert id in OpenForVehicles(View(), {vehicle});
          return true;
        }
        todo := todo - {id};
      }
      return false;
    }

    method CheckAndGrant(
      driver: string, vehicle: string, request: nat, audits: Audits, clock: Clock, later: int)
      returns (reply: Reply)
      requires Valid() && driver in drivers && vehicle in vehicles
      modifies this`sessions, this`approvals, this`lastSession, this`lastSecret, this`log, mailboxes
      ensures Valid()
      ensures (View(), reply) == AfterChecks(cfg, old(View()), driver, vehicle, request, audits, clock, later)
    {
      reply := RequireMobileApproval(driver, vehicle, request, audits.requested, clock.steady);
      if reply.Refused? {
        return;
      }
      if !audits.preflight {
        return Refused(AuthorityDisabled);
      }
      if vehicle in cfg.approvalVehicles {
        if !audits.consumption {
          return Refused(ApprovalNotConsumed);
        }
        reply := RequireMobileApproval(driver, vehicle, request, audits.requestedAgain, later);
        if reply.Refused? {
          return;
        }
      }
      reply := GrantSession(driver, vehicle, audits, clock.wall, later);
    }

    method HandleSessionRequest(
      driver: string, vehicle: string, token: nat, request: nat, audits: Audits, clock: Clock, later: int)
      returns (reply: Reply)
      requires Valid()
      modifies this`drivers, this`sessions, this`approvals, this`lastSession, this`lastSecret, this`log, mailboxes
      ensures Valid()
      ensures (View(), reply)
        == AfterSessionRequest(cfg, old(View()), driver, vehicle, token, request, audits, clock, later)
    {
      var fault := ValidateDriverToken(driver, token, clock.wall);
      if fault.Some? {
        return Refused(fault.value);
      }
      if driver !in cfg.permissions || vehicle !in cfg.permissions[driver] {
        return Refused(VehicleNotPermitted);
      }
      if vehicle !in vehicles {
        return Refused(VehicleNotOnline);
      }
      var taken := IsVehicleTaken(vehicle);
      if taken {
        return Refused(AuthorityTaken);
      }
      reply := CheckAndGrant(driver, vehicle, request, audits, clock, later);
    }

    method HandleCancellation(driver: string, vehicle: string, token: nat, request: nat, now: int)
      returns (reply: Reply)
      requires Valid()
      modifies this`drivers, this`sessions, this`approvals, mailboxes
      ensures Valid()
      ensures (View(), reply) == AfterCancellation(cfg, old(View()), driver, vehicle, token, request, now)
    {
      var fault := ValidateDriverToken(driver, token, now);
      if fault.Some? {
        return Refused(fault.value);
      }
      if vehicle !in approvals || approvals[vehicle].id != request || approvals[vehicle].driver != driver
        || approvals[vehicle].driverGeneration != drivers[driver].generation
      {
        return Refused(ApprovalStale);
      }
      var a := approvals[vehicle];
      if a.session in sessions && sessions[a.session].state != Closed {
        CloseSession(a.session);
      }
      if a.state == Pending || a.state == Approved || a.state == Consumed {
        approvals := approvals[vehicle := a.(state := Cancelled)];
      }
      return Done;
    }

    // -------------------------------------------------------------------
    // The dispatcher
    // -------------------------------------------------------------------

    method ServePresence(request: Request, clock: Clock) returns (reply: Reply)
      requires Valid() && request.AboutPresence()
      modifies this, mailboxes
      ensures Valid() && (View(), reply) == Served(cfg, old(View()), request, clock)
    {
      match request
      case Reap => reply := Done;
      case RevokeDriver(driver) => reply := HandleDriverRevocation(driver);
      case RestoreDriver(driver) => reply := HandleDriverRestoration(driver);
      case RevokeVehicle(vehicle) => reply := HandleVehicleRevocation(vehicle);
      case RestoreVehicle(vehicle) => reply := HandleVehicleRestoration(vehicle);
      case Login(driver, password) => reply := HandleLogin(driver, password, clock.wall);
      case DriverHeartbeat(driver, token) => reply := HandleDriverHeartbeat(driver, token, clock.wall);
      case Logout(driver, token) => reply := HandleLogout(driver, token, clock.wall);
      case GoOnline(vehicle, deviceToken, connection) =>
        reply := HandleVehicleOnline(vehicle, deviceToken, connection, clock.wall);
      case VehicleHeartbeat(vehicle, deviceToken, connected) =>
        reply := HandleVehicleHeartbeat(vehicle, deviceToken, connected, clock.wall);
      case GoOffline(vehicle, deviceToken, connected) =>
        reply := HandleVehicleOffline(vehicle, deviceToken, connected, clock.wall);
    }

    method ServeApproval(request: Request, clock: Clock) returns (reply: Reply)
      requires Valid() && request.AboutApproval()
      modifies this, mailboxes
      ensures Valid() && (View(), reply) == Served(cfg, old(View()), request, clock)
    {
      match request
      case Decide(vehicle, id, approve, approver, audited, later) =>
        reply := HandleDecision(vehicle, id, approve, approver, audited, later);
      case CreateSession(driver, vehicle, token, id, audits, later) =>
        reply := HandleSessionRequest(driver, vehicle, token, id, audits, clock, later);
      case CancelApproval(driver, vehicle, token, id) =>
        reply := HandleCancellation(driver, vehicle, token, id, clock.wall);
    }

    method ServeSession(request: Request, clock: Clock) returns (reply: Reply)
      requires Valid() && !request.AboutPresence() && !request.AboutApproval()
      modifies this, mailboxes
      ensures Valid() && (View(), reply) == Served(cfg, old(View()), request, clock)
    {
      match request
      case EndSession(id, actor, credential) => reply := HandleSessionEnd(id, actor, credential, clock.wall);
      case RenewControl(id, actor, credential) => reply := HandleRenewal(id, actor, credential, clock.wall);
      case Send(message, controlToken, credential, monotonic) =>
        reply := HandleMessage(message, controlToken, credential, clock.wall, monotonic);
      case Read(id, actor, credential, controlOnly, monotonic) =>
        var values;
        reply, values := HandleReading(id, actor, credential, controlOnly, clock.wall, monotonic);
      case Acknowledge(id, actor, credential, cursor, controlOnly) =>
        reply := HandleAcknowledgement(id, actor, credential, cursor, controlOnly, clock.wall);
    }

    /** One request under the lock, from cleanup to reply. */
    method Handle(request: Request, clock: Clock) returns (reply: Reply)
      requires Valid()
      modifies this, mailboxes
      ensures Valid() && View() == Step(cfg, old(View()), request, clock)
    {
      CleanupExpiredConnections(clock);
      if request.AboutPresence() {
        reply := ServePresence(request, clock);
      } else if request.AboutApproval() {
        reply := ServeApproval(request, clock);
      } else {
        reply := ServeSession(request, clock);
      }
    }
  }
}
