/** What every run of the signaling service keeps: who is online, who holds which
    session, and that nothing of a closed session is left in the queues. */
module CloudRuns {
  import opened ControlTypes
  import opened Mailboxes
  import opened Cloud

  // ---------------------------------------------------------------------
  // Presence and tokens
  // ---------------------------------------------------------------------

  ghost predicate HasToken(tokens: map<nat, DriverToken>, driver: string) {
    exists t :: t in tokens && tokens[t].driver == driver
  }

  /** Tokens and online drivers are in bijection, with equal generations. */
  ghost predicate TokensMatch(tokens: map<nat, DriverToken>, drivers: map<string, Presence>, lastSecret: nat) {
    && (forall t | t in tokens ::
          && 0 < t <= lastSecret
          && tokens[t].driver in drivers
          && drivers[tokens[t].driver].generation == tokens[t].generation)
    && (forall t, u | t in tokens && u in tokens && tokens[t].driver == tokens[u].driver :: t == u)
    && (forall d {:trigger HasToken(tokens, d)} | d in drivers :: HasToken(tokens, d))
  }

  ghost predicate Distinct(online: map<string, Presence>, generation: nat) {
    && (forall d | d in online :: 0 < online[d].generation <= generation)
    && (forall d, e | d in online && e in online :: online[d].generation == online[e].generation ==> d == e)
  }

  /** No two connections, of drivers or vehicles, share a generation. */
  ghost predicate GenerationsDiffer(
    drivers: map<string, Presence>, vehicles: map<string, Presence>, generation: nat)
  {
    && Distinct(drivers, generation) && Distinct(vehicles, generation)
    && (forall d, v | d in drivers && v in vehicles :: drivers[d].generation != vehicles[v].generation)
  }

  ghost predicate Offline(revoked: set<string>, online: map<string, Presence>) {
    forall who | who in revoked :: who !in online
  }

  // ---------------------------------------------------------------------
  // Sessions
  // ---------------------------------------------------------------------

  ghost predicate Live(sessions: map<nat, Session>, id: nat) {
    id in sessions && sessions[id].state != Closed
  }

  /** An open session has an online, permitted driver and an online vehicle. */
  ghost predicate SessionsFit(
    cfg: Config, sessions: map<nat, Session>, drivers: map<string, Presence>, vehicles: map<string, Presence>)
  {
    forall id {:trigger Live(sessions, id)} | Live(sessions, id) ::
      && sessions[id].driver in drivers && sessions[id].vehicle in vehicles
      && cfg.Permitted(sessions[id].driver, sessions[id].vehicle)
  }

  /** Session numbers and control tokens have been drawn, tokens only once. */
  ghost predicate Numbered(sessions: map<nat, Session>, lastSession: nat, lastSecret: nat) {
    && (forall id | id in sessions :: 0 < id <= lastSession)
    && (forall id {:trigger Live(sessions, id)} | Live(sessions, id) :: 0 < sessions[id].token <= lastSecret)
    && (forall i, j {:trigger Live(sessions, i), Live(sessions, j)}
          | Live(sessions, i) && Live(sessions, j) && sessions[i].token == sessions[j].token :: i == j)
  }

  /** Control authority over a vehicle is held at most once. */
  ghost predicate OnePerVehicle(sessions: map<nat, Session>) {
    forall i, j {:trigger Live(sessions, i), Live(sessions, j)}
      | Live(sessions, i) && Live(sessions, j) && sessions[i].vehicle == sessions[j].vehicle :: i == j
  }

  // ---------------------------------------------------------------------
  // Queues
  // ---------------------------------------------------------------------

  ghost predicate KeyFits(sessions: map<nat, Session>, key: Key) {
    Live(sessions, key.session)
    && (key.who == sessions[key.session].driver || key.who == sessions[key.session].vehicle)
  }

  ghost predicate StreamFits(sessions: map<nat, Session>, stream: Stream) {
    Live(sessions, stream.session)
    && (stream.sender == sessions[stream.session].driver
        || (!stream.native && stream.sender == sessions[stream.session].vehicle))
  }

  /** No queue, mailbox, cursor or record of an accepted message outlives its
      session, and native commands wait for the vehicle only. */
  ghost predicate MailFits(sessions: map<nat, Session>, mail: Mail) {
    && (forall key | key in mail.queues :: KeyFits(sessions, key))
    && (forall key | key in mail.cursors :: KeyFits(sessions, key))
    && (forall key | key in mail.control ::
          KeyFits(sessions, key) && key.who == sessions[key.session].vehicle)
    && (forall stream | stream in mail.accepted :: StreamFits(sessions, stream))
  }

  ghost predicate People(s: State) {
    && TokensMatch(s.tokens, s.drivers, s.lastSecret)
    && GenerationsDiffer(s.drivers, s.vehicles, s.generation)
    && Offline(s.revokedDrivers, s.drivers) && Offline(s.revokedVehicles, s.vehicles)
  }

  ghost predicate Sessions(cfg: Config, s: State) {
    && SessionsFit(cfg, s.sessions, s.drivers, s.vehicles)
    && Numbered(s.sessions, s.lastSession, s.lastSecret)
    && OnePerVehicle(s.sessions)
  }

  ghost predicate Queues(s: State) {
    MailFits(s.sessions, s.mail) && MailInv(s.mail)
  }

  ghost predicate Inv(cfg: Config, s: State) {
    People(s) && Sessions(cfg, s) && Queues(s)
  }

  ghost predicate SamePeople(online: map<string, Presence>, after: map<string, Presence>) {
    after.Keys == online.Keys && forall d | d in online :: after[d].generation == online[d].generation
  }

  /** The same people are online, with the same credentials and standing. */
  ghost predicate SameStanding(s: State, after: State) {
    && after.tokens == s.tokens && after.generation == s.generation && after.lastSecret >= s.lastSecret
    && after.revokedDrivers == s.revokedDrivers && after.revokedVehicles == s.revokedVehicles
    && SamePeople(s.drivers, after.drivers) && SamePeople(s.vehicles, after.vehicles)
  }

  /** A participant's credential changes nothing but when it was last seen. */
  lemma AuthoriseKeepsStanding(
    cfg: Config, s: State, id: nat, actor: string, credential: Credential, now: int)
    ensures var (after, reply) := Authorise(cfg, s, id, actor, credential, now);
      && SameStanding(s, after)
      && after == s.(drivers := after.drivers, vehicles := after.vehicles)
      && (reply.Done? ==> KeyFits(s.sessions, Key(id, actor)))
  {
  }

  lemma CheckKeepsAuthority(
    cfg: Config, s: State, driver: string, vehicle: string, request: nat, audited: bool, steady: int)
    requires driver in s.drivers && vehicle in s.vehicles
    ensures var (after, reply) := RequireApproval(cfg, s, driver, vehicle, request, audited, steady);
      after == s.(approvals := after.approvals, log := after.log, lastSecret := after.lastSecret)
      && after.lastSecret >= s.lastSecret
  {
    var (after, reply) := RequireApproval(cfg, s, driver, vehicle, request, audited, steady);
    var pending := AfterRequest(cfg, CleanupApprovals(s, steady), driver, vehicle, audited, steady).0;
    assert after in {s, CleanupApprovals(s, steady), pending};
  }

  // ---------------------------------------------------------------------
  // People
  // ---------------------------------------------------------------------

  lemma LeavingKeepsTokens(
    tokens: map<nat, DriverToken>, drivers: map<string, Presence>, lastSecret: nat,
    dead: set<nat>, gone: set<string>)
    requires TokensMatch(tokens, drivers, lastSecret)
    requires forall t | t in tokens :: t in dead <==> tokens[t].driver in gone
    ensures TokensMatch(tokens - dead, drivers - gone, lastSecret)
  {
    forall d | d in drivers - gone ensures HasToken(tokens - dead, d) {
      assert HasToken(tokens, d);
      var t :| t in tokens && tokens[t].driver == d;
      assert t in tokens - dead;
    }
  }

  /** People leaving: the tokens that go are exactly those of the drivers that go. */
  lemma LeavingKeepsPeople(s: State, dead: set<nat>, drivers: set<string>, vehicles: set<string>)
    requires People(s)
    requires forall t | t in s.tokens :: t in dead <==> s.tokens[t].driver in drivers
    ensures People(s.(
      tokens := s.tokens - dead, drivers := s.drivers - drivers, vehicles := s.vehicles - vehicles))
  {
    LeavingKeepsTokens(s.tokens, s.drivers, s.lastSecret, dead, drivers);
  }

  lemma DropTokensKeepsPeople(s: State, dead: set<nat>)
    requires People(s)
    ensures People(DropTokens(s, dead))
  {
    LeavingKeepsPeople(s, dead, DriversOf(s, dead), {});
    assert s.vehicles - {} == s.vehicles;
  }

  lemma DropDriversKeepsPeople(s: State, gone: set<string>)
    requires People(s)
    ensures People(DropDrivers(s, gone))
  {
    LeavingKeepsPeople(s, TokensOf(s, gone), gone, {});
    assert s.vehicles - {} == s.vehicles;
  }

  lemma DropVehiclesKeepsPeople(s: State, gone: set<string>)
    requires People(s)
    ensures People(DropVehicles(s, gone))
  {
    LeavingKeepsPeople(s, {}, {}, gone);
    assert s.tokens - {} == s.tokens && s.drivers - {} == s.drivers;
  }

  lemma CleanupKeepsPeople(cfg: Config, s: State, clock: Clock)
    requires People(s)
    ensures People(Cleanup(cfg, s, clock))
  {
    var now := clock.wall;
    var s1 := DropTokens(s, ExpiredTokens(s, now));
    DropTokensKeepsPeople(s, ExpiredTokens(s, now));
    var s2 := CloseIds(s1, ExpiredSessions(s1, now));
    var s3 := DropVehicles(s2, SilentVehicles(cfg, s2, now));
    DropVehiclesKeepsPeople(s2, SilentVehicles(cfg, s2, now));
    DropDriversKeepsPeople(s3, SilentDrivers(cfg, s3, now));
  }

  lemma SamePeopleKeepTokens(
    tokens: map<nat, DriverToken>, drivers: map<string, Presence>, lastSecret: nat,
    after: map<string, Presence>, later: nat)
    requires TokensMatch(tokens, drivers, lastSecret) && SamePeople(drivers, after) && lastSecret <= later
    ensures TokensMatch(tokens, after, later)
  {
    forall d | d in after ensures HasToken(tokens, d) {
      assert d in drivers.Keys && HasToken(tokens, d);
    }
  }

  lemma StandingKeepsPeople(s: State, after: State)
    requires People(s) && SameStanding(s, after)
    ensures People(after)
  {
    SamePeopleKeepTokens(s.tokens, s.drivers, s.lastSecret, after.drivers, after.lastSecret);
  }

  lemma DriverRevocationKeepsPeople(cfg: Config, s: State, driver: string)
    requires People(s)
    ensures People(AfterDriverRevocation(cfg, s, driver).0)
  {
    LeavingKeepsPeople(s, set t | t in s.tokens && s.tokens[t].driver == driver, {driver}, {});
  }

  lemma VehicleRevocationKeepsPeople(cfg: Config, s: State, vehicle: string)
    requires People(s)
    ensures People(AfterVehicleRevocation(cfg, s, vehicle).0)
  {
    DropVehiclesKeepsPeople(s, {vehicle});
  }

  lemma LoginKeepsTokens(
    tokens: map<nat, DriverToken>, drivers: map<string, Presence>, lastSecret: nat,
    token: DriverToken, presence: Presence)
    requires TokensMatch(tokens, drivers, lastSecret)
    requires token.driver !in drivers && presence.generation == token.generation
    ensures TokensMatch(tokens[lastSecret + 1 := token], drivers[token.driver := presence], lastSecret + 1)
  {
    var after := tokens[lastSecret + 1 := token];
    forall d | d in drivers[token.driver := presence] ensures HasToken(after, d) {
      if d == token.driver {
        assert after[lastSecret + 1].driver == d;
      } else {
        assert HasToken(tokens, d);
        var t :| t in tokens && tokens[t].driver == d;
        assert after[t].driver == d;
      }
    }
  }

  lemma DriverArrivalKeepsGenerations(
    drivers: map<string, Presence>, vehicles: map<string, Presence>, generation: nat,
    driver: string, presence: Presence)
    requires GenerationsDiffer(drivers, vehicles, generation) && presence.generation == generation + 1
    ensures GenerationsDiffer(drivers[driver := presence], vehicles, generation + 1)
  {
  }

  lemma ArrivalKeepsGenerations(
    drivers: map<string, Presence>, vehicles: map<string, Presence>, generation: nat,
    vehicle: string, presence: Presence)
    requires GenerationsDiffer(drivers, vehicles, generation) && presence.generation == generation + 1
    ensures GenerationsDiffer(drivers, vehicles[vehicle := presence], generation + 1)
  {
  }

  lemma LoginKeepsPeople(cfg: Config, s: State, driver: string, password: string, now: int)
    requires People(s)
    ensures People(AfterLogin(cfg, s, driver, password, now).0)
  {
    if driver !in s.drivers {
      var token := DriverToken(driver, now + cfg.tokenTtlMs, s.generation + 1);
      var presence := Presence("", s.generation + 1, now);
      LoginKeepsTokens(s.tokens, s.drivers, s.lastSecret, token, presence);
      DriverArrivalKeepsGenerations(s.drivers, s.vehicles, s.generation, driver, presence);
    }
  }

  lemma LogoutKeepsPeople(s: State, driver: string, token: nat, now: int)
    requires People(s)
    ensures People(AfterLogout(s, driver, token, now).0)
  {
    if DriverFault(s, driver, token, now).None? {
      LeavingKeepsPeople(s, {token}, {driver}, {});
      assert s.vehicles - {} == s.vehicles;
    }
  }

  lemma OnlineKeepsPeople(
    cfg: Config, s: State, vehicle: string, deviceToken: string, connection: string, now: int)
    requires People(s)
    ensures People(AfterVehicleOnline(cfg, s, vehicle, deviceToken, connection, now).0)
  {
    ArrivalKeepsGenerations(
      s.drivers, s.vehicles, s.generation, vehicle, Presence(connection, s.generation + 1, now));
    SeenKeepsPeople(s, vehicle, now);
  }

  lemma SeenKeepsPeople(s: State, who: string, now: int)
    requires People(s)
    ensures who in s.drivers ==> People(SeenDriver(s, who, now))
    ensures who in s.vehicles ==> People(SeenVehicle(s, who, now))
  {
    if who in s.drivers {
      StandingKeepsPeople(s, SeenDriver(s, who, now));
    }
    if who in s.vehicles {
      StandingKeepsPeople(s, SeenVehicle(s, who, now));
    }
  }

  /** Everything people other than the two sides of a session may ask for. */
  lemma PresenceKeepsPeople(cfg: Config, s: State, request: Request, clock: Clock)
    requires People(s) && request.AboutPresence()
    ensures People(Served(cfg, s, request, clock).0)
  {
    match request
    case RevokeDriver(driver) => DriverRevocationKeepsPeople(cfg, s, driver);
    case RevokeVehicle(vehicle) => VehicleRevocationKeepsPeople(cfg, s, vehicle);
    case Login(driver, password) => LoginKeepsPeople(cfg, s, driver, password, clock.wall);
    case DriverHeartbeat(driver, token) => SeenKeepsPeople(s, driver, clock.wall);
    case Logout(driver, token) => LogoutKeepsPeople(s, driver, token, clock.wall);
    case GoOnline(vehicle, deviceToken, connection) =>
      OnlineKeepsPeople(cfg, s, vehicle, deviceToken, connection, clock.wall);
    case VehicleHeartbeat(vehicle, deviceToken, generation) => SeenKeepsPeople(s, vehicle, clock.wall);
    case GoOffline(vehicle, deviceToken, generation) => DropVehiclesKeepsPeople(s, {vehicle});
    case _ =>
  }

  /** What a grant does to sessions and mail. */
  lemma GrantOutcome(
    cfg: Config, s: State, driver: string, vehicle: string, audits: Audits, now: int, steady: int,
    session: Session, after: State)
    requires driver in s.drivers && vehicle in s.vehicles
    requires vehicle in cfg.approvalVehicles ==> vehicle in s.approvals
    requires session == Session(driver, vehicle, Active, s.lastSecret + 1, now + cfg.controlTokenTtlMs)
    requires after == AfterGrant(cfg, s, driver, vehicle, audits, now, steady).0
    ensures after.drivers == s.drivers && after.vehicles == s.vehicles
    ensures after.lastSession == s.lastSession + 1 && after.lastSecret == s.lastSecret + 1
    ensures !audits.created ==>
      after.sessions == s.sessions[after.lastSession := session.(state := Closed)] && after.mail == s.mail
    ensures audits.created && !audits.granted ==>
      var sessions := s.sessions[after.lastSession := session];
      after.sessions == EndSessions(sessions, {after.lastSession})
      && after.mail == EraseMail(s.mail, sessions, {after.lastSession})
    ensures audits.created && audits.granted ==>
      after.sessions == s.sessions[after.lastSession := session] && after.mail == s.mail
  {
  }

  lemma GrantKeepsStanding(
    cfg: Config, s: State, driver: string, vehicle: string, audits: Audits, now: int, steady: int)
    requires driver in s.drivers && vehicle in s.vehicles
    requires vehicle in cfg.approvalVehicles ==> vehicle in s.approvals
    ensures SameStanding(s, AfterGrant(cfg, s, driver, vehicle, audits, now, steady).0)
  {
  }

  lemma ChecksKeepStanding(
    cfg: Config, s: State, driver: string, vehicle: string, request: nat, audits: Audits, clock: Clock, later: int)
    requires driver in s.drivers && vehicle in s.vehicles
    ensures SameStanding(s, AfterChecks(cfg, s, driver, vehicle, request, audits, clock, later).0)
  {
    CheckKeepsAuthority(cfg, s, driver, vehicle, request, audits.requested, clock.steady);
    CheckKeepsVacancy(cfg, s, driver, vehicle, request, audits.requested, clock.steady);
    var (s1, first) := RequireApproval(cfg, s, driver, vehicle, request, audits.requested, clock.steady);
    if first.Done? && audits.preflight {
      if vehicle !in cfg.approvalVehicles {
        GrantKeepsStanding(cfg, s1, driver, vehicle, audits, clock.wall, later);
      } else if audits.consumption {
        CheckKeepsAuthority(cfg, s1, driver, vehicle, request, audits.requestedAgain, later);
        CheckKeepsVacancy(cfg, s1, driver, vehicle, request, audits.requestedAgain, later);
        var (s2, second) := RequireApproval(cfg, s1, driver, vehicle, request, audits.requestedAgain, later);
        if second.Done? {
          GrantKeepsStanding(cfg, s2, driver, vehicle, audits, clock.wall, later);
        }
      }
    }
  }

  lemma CancellationKeepsStanding(
    cfg: Config, s: State, driver: string, vehicle: string, token: nat, request: nat, now: int)
    ensures SameStanding(s, AfterCancellation(cfg, s, driver, vehicle, token, request, now).0)
  {
  }

  lemma DecisionKeepsAuthority(
    cfg: Config, s: State, vehicle: string, request: nat, approve: bool, approver: string, audited: bool,
    steady: int)
    ensures var after := AfterDecision(cfg, s, vehicle, request, approve, approver, audited, steady).0;
      after == s.(approvals := after.approvals, log := after.log)
  {
  }

  lemma CreationKeepsStanding(
    cfg: Config, s: State, driver: string, vehicle: string, token: nat, request: nat, audits: Audits,
    clock: Clock, later: int)
    ensures SameStanding(
      s, AfterSessionRequest(cfg, s, driver, vehicle, token, request, audits, clock, later).0)
  {
    if DriverFault(s, driver, token, clock.wall).None? && vehicle in s.vehicles {
      ChecksKeepStanding(cfg, SeenDriver(s, driver, clock.wall), driver, vehicle, request, audits, clock, later);
    }
  }

  lemma ApprovalKeepsStanding(cfg: Config, s: State, request: Request, clock: Clock)
    requires request.AboutApproval()
    ensures SameStanding(s, Served(cfg, s, request, clock).0)
  {
    match request
    case CreateSession(driver, vehicle, token, id, audits, later) =>
      CreationKeepsStanding(cfg, s, driver, vehicle, token, id, audits, clock, later);
    case CancelApproval(driver, vehicle, token, id) =>
      CancellationKeepsStanding(cfg, s, driver, vehicle, token, id, clock.wall);
    case Decide(vehicle, id, approve, approver, audited, later) =>
      DecisionKeepsAuthority(cfg, s, vehicle, id, approve, approver, audited, later);
  }

  lemma ServedKeepsPeople(cfg: Config, s: State, request: Request, clock: Clock)
    requires People(s)
    ensures People(Served(cfg, s, request, clock).0)
  {
    if request.AboutPresence() {
      PresenceKeepsPeople(cfg, s, request, clock);
    } else {
      if request.AboutApproval() {
        ApprovalKeepsStanding(cfg, s, request, clock);
      } else {
        SessionKeepsStanding(cfg, s, request, clock);
      }
      StandingKeepsPeople(s, Served(cfg, s, request, clock).0);
    }
  }

  lemma SessionKeepsStanding(cfg: Config, s: State, request: Request, clock: Clock)
    requires !request.AboutPresence() && !request.AboutApproval()
    ensures SameStanding(s, Served(cfg, s, request, clock).0)
  {
    match request
    case EndSession(id, actor, credential) => AuthoriseKeepsStanding(cfg, s, id, actor, credential, clock.wall);
    case RenewControl(id, actor, credential) => AuthoriseKeepsStanding(cfg, s, id, actor, credential, clock.wall);
    case Send(m, _, credential, _) => AuthoriseKeepsStanding(cfg, s, m.session, m.sender, credential, clock.wall);
    case Read(id, actor, credential, _, _) => AuthoriseKeepsStanding(cfg, s, id, actor, credential, clock.wall);
    case Acknowledge(id, actor, credential, _, _) =>
      AuthoriseKeepsStanding(cfg, s, id, actor, credential, clock.wall);
  }

  // ---------------------------------------------------------------------
  // Sessions
  // ---------------------------------------------------------------------

  lemma CloseKeepsSessions(cfg: Config, s: State, ids: set<nat>)
    requires Sessions(cfg, s)
    ensures Sessions(cfg, CloseIds(s, ids))
  {
    assert forall id | Live(EndSessions(s.sessions, ids), id) :: Live(s.sessions, id);
  }

  /** Whoever leaves, their open sessions are closed. */
  lemma LeavingKeepsSessions(cfg: Config, s: State, drivers: set<string>, vehicles: set<string>, ids: set<nat>)
    requires Sessions(cfg, s)
    requires OpenForDrivers(s, drivers) <= ids && OpenForVehicles(s, vehicles) <= ids
    ensures Sessions(cfg, CloseIds(s, ids).(drivers := s.drivers - drivers, vehicles := s.vehicles - vehicles))
  {
    CloseKeepsSessions(cfg, s, ids);
    var sessions := EndSessions(s.sessions, ids);
    forall id | Live(sessions, id)
      ensures sessions[id].driver in s.drivers - drivers && sessions[id].vehicle in s.vehicles - vehicles
    {
      assert Live(s.sessions, id);
      assert id !in OpenForDrivers(s, drivers) && id !in OpenForVehicles(s, vehicles);
    }
  }

  lemma NoOneLeaves(s: State)
    ensures OpenForDrivers(s, {}) == {} && OpenForVehicles(s, {}) == {}
    ensures s.drivers - {} == s.drivers && s.vehicles - {} == s.vehicles
  {
  }

  lemma DropsKeepSessions(cfg: Config, s: State, tokens: set<nat>, drivers: set<string>, vehicles: set<string>)
    requires Sessions(cfg, s)
    ensures Sessions(cfg, DropTokens(s, tokens))
    ensures Sessions(cfg, DropDrivers(s, drivers))
    ensures Sessions(cfg, DropVehicles(s, vehicles))
  {
    NoOneLeaves(s);
    var gone := DriversOf(s, tokens);
    LeavingKeepsSessions(cfg, s, gone, {}, OpenForDrivers(s, gone));
    LeavingKeepsSessions(cfg, s, drivers, {}, OpenForDrivers(s, drivers));
    LeavingKeepsSessions(cfg, s, {}, vehicles, OpenForVehicles(s, vehicles));
  }

  lemma CleanupKeepsSessions(cfg: Config, s: State, clock: Clock)
    requires Sessions(cfg, s)
    ensures Sessions(cfg, Cleanup(cfg, s, clock))
  {
    var now := clock.wall;
    var s1 := DropTokens(s, ExpiredTokens(s, now));
    DropsKeepSessions(cfg, s, ExpiredTokens(s, now), {}, {});
    var s2 := CloseIds(s1, ExpiredSessions(s1, now));
    CloseKeepsSessions(cfg, s1, ExpiredSessions(s1, now));
    var s3 := DropVehicles(s2, SilentVehicles(cfg, s2, now));
    DropsKeepSessions(cfg, s2, {}, {}, SilentVehicles(cfg, s2, now));
    DropsKeepSessions(cfg, s3, {}, SilentDrivers(cfg, s3, now), {});
  }

  /** More people online, or more secrets drawn, takes nothing from a session. */
  lemma ArrivalsKeepSessions(cfg: Config, s: State, after: State)
    requires Sessions(cfg, s)
    requires after.sessions == s.sessions && after.lastSession == s.lastSession && after.lastSecret >= s.lastSecret
    requires s.drivers.Keys <= after.drivers.Keys && s.vehicles.Keys <= after.vehicles.Keys
    ensures Sessions(cfg, after)
  {
    forall id | Live(s.sessions, id)
      ensures s.sessions[id].driver in after.drivers && s.sessions[id].vehicle in after.vehicles
    {
      assert s.sessions[id].driver in after.drivers.Keys && s.sessions[id].vehicle in after.vehicles.Keys;
    }
  }

  lemma OnlineKeepsSessions(
    cfg: Config, s: State, vehicle: string, deviceToken: string, connection: string, now: int)
    requires Sessions(cfg, s)
    ensures Sessions(cfg, AfterVehicleOnline(cfg, s, vehicle, deviceToken, connection, now).0)
  {
    CloseKeepsSessions(cfg, s, OpenForVehicles(s, {vehicle}));
    var after := AfterVehicleOnline(cfg, s, vehicle, deviceToken, connection, now).0;
    if after.sessions == s.sessions {
      ArrivalsKeepSessions(cfg, s, after);
    } else {
      ArrivalsKeepSessions(cfg, CloseIds(s, OpenForVehicles(s, {vehicle})), after);
    }
  }

  lemma DepartureKeepsSessions(cfg: Config, s: State, who: string, token: nat, now: int)
    requires Sessions(cfg, s)
    ensures Sessions(cfg, AfterDriverRevocation(cfg, s, who).0)
    ensures Sessions(cfg, AfterLogout(s, who, token, now).0)
    ensures Sessions(cfg, AfterVehicleRevocation(cfg, s, who).0)
  {
    NoOneLeaves(s);
    LeavingKeepsSessions(cfg, s, {who}, {}, OpenForDrivers(s, {who}));
    LeavingKeepsSessions(cfg, s, {}, {who}, OpenForVehicles(s, {who}));
  }

  lemma PresenceKeepsSessions(cfg: Config, s: State, request: Request, clock: Clock)
    requires Sessions(cfg, s) && request.AboutPresence()
    ensures Sessions(cfg, Served(cfg, s, request, clock).0)
  {
    match request
    case RevokeDriver(driver) => DepartureKeepsSessions(cfg, s, driver, 0, clock.wall);
    case RevokeVehicle(vehicle) => DepartureKeepsSessions(cfg, s, vehicle, 0, clock.wall);
    case Logout(driver, token) => DepartureKeepsSessions(cfg, s, driver, token, clock.wall);
    case GoOffline(vehicle, deviceToken, generation) => DropsKeepSessions(cfg, s, {}, {}, {vehicle});
    case GoOnline(vehicle, deviceToken, connection) =>
      OnlineKeepsSessions(cfg, s, vehicle, deviceToken, connection, clock.wall);
    case _ => ArrivalsKeepSessions(cfg, s, Served(cfg, s, request, clock).0);
  }

  function WithLease(sessions: map<nat, Session>, id: nat, expiresAt: int): map<nat, Session>
    requires id in sessions
  {
    sessions[id := sessions[id].(expiresAt := expiresAt)]
  }

  lemma LeaseKeepsSessions(cfg: Config, s: State, id: nat, expiresAt: int)
    requires Sessions(cfg, s) && id in s.sessions
    ensures Sessions(cfg, s.(sessions := WithLease(s.sessions, id, expiresAt)))
  {
    assert forall i :: Live(s.sessions, i) == Live(WithLease(s.sessions, id, expiresAt), i);
  }

  lemma EndKeepsSessions(cfg: Config, s: State, id: nat, actor: string, credential: Credential, now: int)
    requires Sessions(cfg, s)
    ensures Sessions(cfg, AfterSessionEnd(cfg, s, id, actor, credential, now).0)
  {
    AuthoriseKeepsStanding(cfg, s, id, actor, credential, now);
    var s1 := Authorise(cfg, s, id, actor, credential, now).0;
    ArrivalsKeepSessions(cfg, s, s1);
    CloseKeepsSessions(cfg, s1, {id});
  }

  lemma RenewalKeepsSessions(cfg: Config, s: State, id: nat, actor: string, credential: Credential, now: int)
    requires Sessions(cfg, s)
    ensures Sessions(cfg, AfterRenewal(cfg, s, id, actor, credential, now).0)
  {
    AuthoriseKeepsStanding(cfg, s, id, actor, credential, now);
    var s1 := Authorise(cfg, s, id, actor, credential, now).0;
    ArrivalsKeepSessions(cfg, s, s1);
    if id in s1.sessions {
      LeaseKeepsSessions(cfg, s1, id, now + cfg.controlTokenTtlMs);
    }
  }

  lemma SessionKeepsSessions(cfg: Config, s: State, request: Request, clock: Clock)
    requires Sessions(cfg, s) && !request.AboutPresence() && !request.AboutApproval()
    ensures Sessions(cfg, Served(cfg, s, request, clock).0)
  {
    match request
    case EndSession(id, actor, credential) => EndKeepsSessions(cfg, s, id, actor, credential, clock.wall);
    case RenewControl(id, actor, credential) => RenewalKeepsSessions(cfg, s, id, actor, credential, clock.wall);
    case _ =>
      MailKeepsSessionTable(cfg, s, request, clock);
      SessionKeepsStanding(cfg, s, request, clock);
      ArrivalsKeepSessions(cfg, s, Served(cfg, s, request, clock).0);
  }

  lemma MailKeepsSessionTable(cfg: Config, s: State, request: Request, clock: Clock)
    requires request.Send? || request.Read? || request.Acknowledge?
    ensures var after := Served(cfg, s, request, clock).0;
      after == s.(drivers := after.drivers, vehicles := after.vehicles, mail := after.mail)
  {
    match request
    case Send(m, _, credential, _) => AuthoriseKeepsStanding(cfg, s, m.session, m.sender, credential, clock.wall);
    case Read(id, actor, credential, _, _) => AuthoriseKeepsStanding(cfg, s, id, actor, credential, clock.wall);
    case Acknowledge(id, actor, credential, _, _) =>
      AuthoriseKeepsStanding(cfg, s, id, actor, credential, clock.wall);
  }

  lemma NewSessionKeepsSessions(cfg: Config, s: State, n: Session)
    requires Sessions(cfg, s)
    requires n.token == s.lastSecret + 1 && n.driver in s.drivers && n.vehicle in s.vehicles
    requires cfg.Permitted(n.driver, n.vehicle) && OpenForVehicles(s, {n.vehicle}) == {}
    ensures Sessions(cfg, s.(
      lastSession := s.lastSession + 1, lastSecret := s.lastSecret + 1,
      sessions := s.sessions[s.lastSession + 1 := n]))
  {
    var id := s.lastSession + 1;
    var sessions := s.sessions[id := n];
    forall i | Live(sessions, i) && i != id ensures Live(s.sessions, i) && s.sessions[i].vehicle != n.vehicle {
      assert i !in OpenForVehicles(s, {n.vehicle});
    }
  }

  lemma GrantKeepsSessions(
    cfg: Config, s: State, driver: string, vehicle: string, audits: Audits, now: int, steady: int)
    requires Sessions(cfg, s)
    requires driver in s.drivers && vehicle in s.vehicles && cfg.Permitted(driver, vehicle)
    requires vehicle in cfg.approvalVehicles ==> vehicle in s.approvals
    requires OpenForVehicles(s, {vehicle}) == {}
    ensures Sessions(cfg, AfterGrant(cfg, s, driver, vehicle, audits, now, steady).0)
  {
    var id := s.lastSession + 1;
    var session := Session(driver, vehicle, Active, s.lastSecret + 1, now + cfg.controlTokenTtlMs);
    var after := AfterGrant(cfg, s, driver, vehicle, audits, now, steady).0;
    GrantOutcome(cfg, s, driver, vehicle, audits, now, steady, session, after);
    NewSessionKeepsSessions(cfg, s, session);
    var bare := s.(lastSession := id, lastSecret := s.lastSecret + 1, sessions := s.sessions[id := session]);
    if !audits.created {
      NewSessionKeepsSessions(cfg, s, session.(state := Closed));
    } else if !audits.granted {
      CloseKeepsSessions(cfg, bare, {id});
    }
  }

  lemma CheckKeepsVacancy(
    cfg: Config, s: State, driver: string, vehicle: string, request: nat, audited: bool, steady: int)
    requires driver in s.drivers && vehicle in s.vehicles
    ensures var (after, reply) := RequireApproval(cfg, s, driver, vehicle, request, audited, steady);
      && OpenForVehicles(after, {vehicle}) == OpenForVehicles(s, {vehicle})
      && (reply.Done? && vehicle in cfg.approvalVehicles ==> vehicle in after.approvals)
  {
    CheckKeepsAuthority(cfg, s, driver, vehicle, request, audited, steady);
  }

  lemma ChecksKeepSessions(
    cfg: Config, s: State, driver: string, vehicle: string, request: nat, audits: Audits,
    clock: Clock, later: int)
    requires Sessions(cfg, s)
    requires driver in s.drivers && vehicle in s.vehicles && cfg.Permitted(driver, vehicle)
    requires OpenForVehicles(s, {vehicle}) == {}
    ensures Sessions(cfg, AfterChecks(cfg, s, driver, vehicle, request, audits, clock, later).0)
  {
    CheckKeepsAuthority(cfg, s, driver, vehicle, request, audits.requested, clock.steady);
    CheckKeepsVacancy(cfg, s, driver, vehicle, request, audits.requested, clock.steady);
    var (s1, first) := RequireApproval(cfg, s, driver, vehicle, request, audits.requested, clock.steady);
    ArrivalsKeepSessions(cfg, s, s1);
    if first.Done? && audits.preflight {
      if vehicle !in cfg.approvalVehicles {
        GrantKeepsSessions(cfg, s1, driver, vehicle, audits, clock.wall, later);
      } else if audits.consumption {
        CheckKeepsAuthority(cfg, s1, driver, vehicle, request, audits.requestedAgain, later);
        CheckKeepsVacancy(cfg, s1, driver, vehicle, request, audits.requestedAgain, later);
        var (s2, second) := RequireApproval(cfg, s1, driver, vehicle, request, audits.requestedAgain, later);
        ArrivalsKeepSessions(cfg, s1, s2);
        if second.Done? {
          GrantKeepsSessions(cfg, s2, driver, vehicle, audits, clock.wall, later);
        }
      }
    }
  }

  lemma CreationKeepsSessions(
    cfg: Config, s: State, driver: string, vehicle: string, token: nat, request: nat, audits: Audits,
    clock: Clock, later: int)
    requires Sessions(cfg, s)
    ensures Sessions(cfg, AfterSessionRequest(cfg, s, driver, vehicle, token, request, audits, clock, later).0)
  {
    if DriverFault(s, driver, token, clock.wall).None? {
      var s1 := SeenDriver(s, driver, clock.wall);
      ArrivalsKeepSessions(cfg, s, s1);
      if cfg.Permitted(driver, vehicle) && vehicle in s1.vehicles && OpenForVehicles(s1, {vehicle}) == {} {
        ChecksKeepSessions(cfg, s1, driver, vehicle, request, audits, clock, later);
      }
    }
  }

  lemma CancellationKeepsSessions(
    cfg: Config, s: State, driver: string, vehicle: string, token: nat, request: nat, now: int)
    requires Sessions(cfg, s)
    ensures Sessions(cfg, AfterCancellation(cfg, s, driver, vehicle, token, request, now).0)
  {
    if DriverFault(s, driver, token, now).None? {
      var s1 := SeenDriver(s, driver, now);
      ArrivalsKeepSessions(cfg, s, s1);
      if vehicle in s1.approvals {
        CloseKeepsSessions(cfg, s1, {s1.approvals[vehicle].session});
      }
    }
  }

  lemma ServedKeepsSessions(cfg: Config, s: State, request: Request, clock: Clock)
    requires Sessions(cfg, s)
    ensures Sessions(cfg, Served(cfg, s, request, clock).0)
  {
    if request.AboutPresence() {
      PresenceKeepsSessions(cfg, s, request, clock);
    } else if !request.AboutApproval() {
      SessionKeepsSessions(cfg, s, request, clock);
    } else {
      match request
      case CreateSession(driver, vehicle, token, id, audits, later) =>
        CreationKeepsSessions(cfg, s, driver, vehicle, token, id, audits, clock, later);
      case CancelApproval(driver, vehicle, token, id) =>
        CancellationKeepsSessions(cfg, s, driver, vehicle, token, id, clock.wall);
      case Decide(vehicle, id, approve, approver, audited, later) =>
        DecisionKeepsAuthority(cfg, s, vehicle, id, approve, approver, audited, later);
        ArrivalsKeepSessions(cfg, s, Served(cfg, s, request, clock).0);
    }
  }

  // ---------------------------------------------------------------------
  // Queues
  // ---------------------------------------------------------------------

  lemma CloseErases(sessions: map<nat, Session>, mail: Mail, ids: set<nat>)
    requires MailFits(sessions, mail)
    ensures MailFits(EndSessions(sessions, ids), EraseMail(mail, sessions, ids))
  {
    var left := EndSessions(sessions, ids);
    assert forall key | KeyFits(sessions, key) && !Belongs(sessions, ids, key.session, key.who) ::
        KeyFits(left, key) && left[key.session].vehicle == sessions[key.session].vehicle;
    assert forall stream | StreamFits(sessions, stream) && !StreamBelongs(sessions, ids, stream) ::
        StreamFits(left, stream);
  }

  lemma CloseKeepsControl(sessions: map<nat, Session>, mail: Mail, ids: set<nat>, key: Key)
    requires MailFits(sessions, mail) && key in EraseMail(mail, sessions, ids).control
    requires ControlFits(mail, key)
    ensures ControlFits(EraseMail(mail, sessions, ids), key)
  {
    assert KeyFits(sessions, key);
    assert EraseMail(mail, sessions, ids).Queue(key) == mail.Queue(key);
  }

  lemma CloseKeepsAccepted(sessions: map<nat, Session>, mail: Mail, ids: set<nat>, stream: Stream)
    requires MailFits(sessions, mail) && stream in EraseMail(mail, sessions, ids).accepted
    requires AcceptedFits(mail, stream)
    ensures AcceptedFits(EraseMail(mail, sessions, ids), stream)
  {
    assert StreamFits(sessions, stream);
  }

  /** Closing a session takes everything that waits for it and nothing else. */
  lemma CloseKeepsQueues(sessions: map<nat, Session>, mail: Mail, ids: set<nat>)
    requires MailFits(sessions, mail) && MailInv(mail)
    ensures MailFits(EndSessions(sessions, ids), EraseMail(mail, sessions, ids))
    ensures MailInv(EraseMail(mail, sessions, ids))
  {
    CloseErases(sessions, mail, ids);
    var after := EraseMail(mail, sessions, ids);
    forall key ensures QueueFits(after, key) {
      assert QueueFits(mail, key);
      assert key in after.queues ==> after.Queue(key) == mail.Queue(key) && after.Cursor(key) == mail.Cursor(key);
    }
    forall key | key in after.control ensures ControlFits(after, key) {
      CloseKeepsControl(sessions, mail, ids, key);
    }
    forall stream | stream in after.accepted ensures AcceptedFits(after, stream) {
      CloseKeepsAccepted(sessions, mail, ids, stream);
    }
  }

  lemma CleanupKeepsQueues(cfg: Config, s: State, clock: Clock)
    requires Queues(s)
    ensures Queues(Cleanup(cfg, s, clock))
  {
    var now := clock.wall;
    var s1 := DropTokens(s, ExpiredTokens(s, now));
    CloseKeepsQueues(s.sessions, s.mail, OpenForDrivers(s, DriversOf(s, ExpiredTokens(s, now))));
    var s2 := CloseIds(s1, ExpiredSessions(s1, now));
    CloseKeepsQueues(s1.sessions, s1.mail, ExpiredSessions(s1, now));
    var s3 := DropVehicles(s2, SilentVehicles(cfg, s2, now));
    CloseKeepsQueues(s2.sessions, s2.mail, OpenForVehicles(s2, SilentVehicles(cfg, s2, now)));
    CloseKeepsQueues(s3.sessions, s3.mail, OpenForDrivers(s3, SilentDrivers(cfg, s3, now)));
  }

  /** What a request about presence does to sessions and mail: nothing, or close
      some sessions. */
  ghost predicate OnlyCloses(s: State, after: State) {
    || (after.sessions == s.sessions && after.mail == s.mail)
    || (exists ids ::
          after.sessions == EndSessions(s.sessions, ids) && after.mail == EraseMail(s.mail, s.sessions, ids))
  }

  lemma ClosingKeepsQueues(s: State, after: State)
    requires Queues(s) && OnlyCloses(s, after)
    ensures Queues(after)
  {
    if after.sessions != s.sessions || after.mail != s.mail {
      var ids :| after.sessions == EndSessions(s.sessions, ids) && after.mail == EraseMail(s.mail, s.sessions, ids);
      CloseKeepsQueues(s.sessions, s.mail, ids);
    }
  }

  lemma PresenceOnlyCloses(cfg: Config, s: State, request: Request, clock: Clock)
    requires request.AboutPresence()
    ensures OnlyCloses(s, Served(cfg, s, request, clock).0)
  {
  }

  lemma LeaseKeepsMail(sessions: map<nat, Session>, mail: Mail, id: nat, expiresAt: int)
    requires MailFits(sessions, mail) && id in sessions
    ensures MailFits(WithLease(sessions, id, expiresAt), mail)
  {
    var after := WithLease(sessions, id, expiresAt);
    assert forall key | KeyFits(sessions, key) ::
        KeyFits(after, key) && after[key.session].vehicle == sessions[key.session].vehicle;
    assert forall stream | StreamFits(sessions, stream) :: StreamFits(after, stream);
  }

  lemma MessageKeepsQueues(sessions: map<nat, Session>, mail: Mail, m: Submission, now: int)
    requires MailFits(sessions, mail) && MailInv(mail)
    requires KeyFits(sessions, m.Target()) && StreamFits(sessions, m.Source())
    requires m.kind == ControlCommand ==> m.recipient == sessions[m.session].vehicle
    ensures MailFits(sessions, Enqueue(mail, m, now).0) && MailInv(Enqueue(mail, m, now).0)
  {
    assert OneControlRoute(mail, m) by {
      forall key | m.kind == ControlCommand && key in mail.control
        && mail.control[key].content.Source() == m.Source()
        ensures key == m.Target()
      {
        assert ControlFits(mail, key);
      }
    }
    EnqueueKeepsInv(mail, m, now);
  }

  lemma EndKeepsQueues(cfg: Config, s: State, id: nat, actor: string, credential: Credential, now: int)
    requires Queues(s)
    ensures Queues(AfterSessionEnd(cfg, s, id, actor, credential, now).0)
  {
    AuthoriseKeepsStanding(cfg, s, id, actor, credential, now);
    CloseKeepsQueues(s.sessions, s.mail, {id});
  }

  lemma RenewalKeepsQueues(cfg: Config, s: State, id: nat, actor: string, credential: Credential, now: int)
    requires Queues(s)
    ensures Queues(AfterRenewal(cfg, s, id, actor, credential, now).0)
  {
    AuthoriseKeepsStanding(cfg, s, id, actor, credential, now);
    var after := AfterRenewal(cfg, s, id, actor, credential, now).0;
    if after.sessions != s.sessions {
      LeaseKeepsMail(s.sessions, s.mail, id, after.sessions[id].expiresAt);
    }
  }

  lemma ReadingKeepsQueues(
    cfg: Config, s: State, id: nat, actor: string, credential: Credential, controlOnly: bool,
    now: int, monotonic: int)
    requires Queues(s)
    ensures Queues(AfterReading(cfg, s, id, actor, credential, controlOnly, now, monotonic).0)
  {
    AuthoriseKeepsStanding(cfg, s, id, actor, credential, now);
    TakeKeepsInv(s.mail, Key(id, actor), controlOnly, monotonic, cfg.ttl);
  }

  lemma AcknowledgementKeepsQueues(
    cfg: Config, s: State, id: nat, actor: string, credential: Credential, cursor: nat, controlOnly: bool, now: int)
    requires Queues(s)
    ensures Queues(AfterAcknowledgement(cfg, s, id, actor, credential, cursor, controlOnly, now).0)
  {
    AuthoriseKeepsStanding(cfg, s, id, actor, credential, now);
    AcknowledgeKeepsInv(s.mail, Key(id, actor), cursor, controlOnly);
  }

  lemma SessionKeepsQueues(cfg: Config, s: State, request: Request, clock: Clock)
    requires Queues(s) && !request.AboutPresence() && !request.AboutApproval()
    ensures Queues(Served(cfg, s, request, clock).0)
  {
    match request
    case EndSession(id, actor, credential) => EndKeepsQueues(cfg, s, id, actor, credential, clock.wall);
    case RenewControl(id, actor, credential) => RenewalKeepsQueues(cfg, s, id, actor, credential, clock.wall);
    case Send(m, controlToken, credential, monotonic) =>
      SendKeepsQueues(cfg, s, m, controlToken, credential, clock.wall, monotonic);
    case Read(id, actor, credential, controlOnly, monotonic) =>
      ReadingKeepsQueues(cfg, s, id, actor, credential, controlOnly, clock.wall, monotonic);
    case Acknowledge(id, actor, credential, cursor, controlOnly) =>
      AcknowledgementKeepsQueues(cfg, s, id, actor, credential, cursor, controlOnly, clock.wall);
  }

  lemma SendKeepsQueues(
    cfg: Config, s: State, m: Submission, controlToken: nat, credential: Credential, now: int, monotonic: int)
    requires Queues(s)
    ensures Queues(AfterMessage(cfg, s, m, controlToken, credential, now, monotonic).0)
  {
    AuthoriseKeepsStanding(cfg, s, m.session, m.sender, credential, now);
    if AfterMessage(cfg, s, m, controlToken, credential, now, monotonic).0.mail != s.mail {
      MessageKeepsQueues(s.sessions, s.mail, m, monotonic);
    }
  }

  lemma NewSessionKeepsMail(sessions: map<nat, Session>, mail: Mail, id: nat, n: Session)
    requires MailFits(sessions, mail) && id !in sessions
    ensures MailFits(sessions[id := n], mail)
  {
    assert forall key | KeyFits(sessions, key) ::
        KeyFits(sessions[id := n], key) && sessions[id := n][key.session] == sessions[key.session];
    assert forall stream | StreamFits(sessions, stream) :: StreamFits(sessions[id := n], stream);
  }

  lemma GrantKeepsQueues(
    cfg: Config, s: State, driver: string, vehicle: string, audits: Audits, now: int, steady: int)
    requires Queues(s) && s.lastSession + 1 !in s.sessions
    requires driver in s.drivers && vehicle in s.vehicles
    requires vehicle in cfg.approvalVehicles ==> vehicle in s.approvals
    ensures Queues(AfterGrant(cfg, s, driver, vehicle, audits, now, steady).0)
  {
    var id := s.lastSession + 1;
    var session := Session(driver, vehicle, Active, s.lastSecret + 1, now + cfg.controlTokenTtlMs);
    var after := AfterGrant(cfg, s, driver, vehicle, audits, now, steady).0;
    GrantOutcome(cfg, s, driver, vehicle, audits, now, steady, session, after);
    NewSessionKeepsMail(s.sessions, s.mail, id, session);
    if !audits.created {
      NewSessionKeepsMail(s.sessions, s.mail, id, session.(state := Closed));
    } else if !audits.granted {
      CloseKeepsQueues(s.sessions[id := session], s.mail, {id});
    }
  }

  lemma ChecksKeepQueues(
    cfg: Config, s: State, driver: string, vehicle: string, request: nat, audits: Audits,
    clock: Clock, later: int)
    requires Queues(s) && s.lastSession + 1 !in s.sessions
    requires driver in s.drivers && vehicle in s.vehicles
    ensures Queues(AfterChecks(cfg, s, driver, vehicle, request, audits, clock, later).0)
  {
    CheckKeepsAuthority(cfg, s, driver, vehicle, request, audits.requested, clock.steady);
    CheckKeepsVacancy(cfg, s, driver, vehicle, request, audits.requested, clock.steady);
    var (s1, first) := RequireApproval(cfg, s, driver, vehicle, request, audits.requested, clock.steady);
    if first.Done? && audits.preflight {
      if vehicle !in cfg.approvalVehicles {
        GrantKeepsQueues(cfg, s1, driver, vehicle, audits, clock.wall, later);
      } else if audits.consumption {
        CheckKeepsAuthority(cfg, s1, driver, vehicle, request, audits.requestedAgain, later);
        CheckKeepsVacancy(cfg, s1, driver, vehicle, request, audits.requestedAgain, later);
        var (s2, second) := RequireApproval(cfg, s1, driver, vehicle, request, audits.requestedAgain, later);
        if second.Done? {
          GrantKeepsQueues(cfg, s2, driver, vehicle, audits, clock.wall, later);
        }
      }
    }
  }

  lemma CreationKeepsQueues(
    cfg: Config, s: State, driver: string, vehicle: string, token: nat, request: nat, audits: Audits,
    clock: Clock, later: int)
    requires Queues(s) && s.lastSession + 1 !in s.sessions
    ensures Queues(AfterSessionRequest(cfg, s, driver, vehicle, token, request, audits, clock, later).0)
  {
    if DriverFault(s, driver, token, clock.wall).None? && vehicle in s.vehicles {
      ChecksKeepQueues(cfg, SeenDriver(s, driver, clock.wall), driver, vehicle, request, audits, clock, later);
    }
  }

  lemma CancellationKeepsQueues(
    cfg: Config, s: State, driver: string, vehicle: string, token: nat, request: nat, now: int)
    requires Queues(s)
    ensures Queues(AfterCancellation(cfg, s, driver, vehicle, token, request, now).0)
  {
    if vehicle in s.approvals {
      CloseKeepsQueues(s.sessions, s.mail, {s.approvals[vehicle].session});
    }
  }

  lemma ApprovalKeepsQueues(cfg: Config, s: State, request: Request, clock: Clock)
    requires Queues(s) && s.lastSession + 1 !in s.sessions && request.AboutApproval()
    ensures Queues(Served(cfg, s, request, clock).0)
  {
    match request
    case CreateSession(driver, vehicle, token, id, audits, later) =>
      CreationKeepsQueues(cfg, s, driver, vehicle, token, id, audits, clock, later);
    case CancelApproval(driver, vehicle, token, id) =>
      CancellationKeepsQueues(cfg, s, driver, vehicle, token, id, clock.wall);
    case Decide(vehicle, id, approve, approver, audited, later) =>
      DecisionKeepsAuthority(cfg, s, vehicle, id, approve, approver, audited, later);
  }

  lemma ServedKeepsQueues(cfg: Config, s: State, request: Request, clock: Clock)
    requires Queues(s) && s.lastSession + 1 !in s.sessions
    ensures Queues(Served(cfg, s, request, clock).0)
  {
    if request.AboutPresence() {
      PresenceOnlyCloses(cfg, s, request, clock);
      ClosingKeepsQueues(s, Served(cfg, s, request, clock).0);
    } else if request.AboutApproval() {
      ApprovalKeepsQueues(cfg, s, request, clock);
    } else {
      SessionKeepsQueues(cfg, s, request, clock);
    }
  }

  // ---------------------------------------------------------------------
  // Every run
  // ---------------------------------------------------------------------

  lemma {:induction false} RunKeepsPeople(cfg: Config, requests: seq<(Request, Clock)>)
    ensures People(Run(cfg, requests))
  {
    if requests != [] {
      var n := |requests| - 1;
      RunKeepsPeople(cfg, requests[..n]);
      var s, request, clock := Run(cfg, requests[..n]), requests[n].0, requests[n].1;
      CleanupKeepsPeople(cfg, s, clock);
      ServedKeepsPeople(cfg, Cleanup(cfg, s, clock), request, clock);
    }
  }

  lemma {:induction false} RunKeepsSessions(cfg: Config, requests: seq<(Request, Clock)>)
    ensures Sessions(cfg, Run(cfg, requests))
  {
    if requests != [] {
      var n := |requests| - 1;
      RunKeepsSessions(cfg, requests[..n]);
      var s, request, clock := Run(cfg, requests[..n]), requests[n].0, requests[n].1;
      CleanupKeepsSessions(cfg, s, clock);
      ServedKeepsSessions(cfg, Cleanup(cfg, s, clock), request, clock);
    }
  }

  lemma {:induction false} RunKeepsQueues(cfg: Config, requests: seq<(Request, Clock)>)
    ensures Queues(Run(cfg, requests))
  {
    if requests != [] {
      var n := |requests| - 1;
      RunKeepsQueues(cfg, requests[..n]);
      RunKeepsSessions(cfg, requests[..n]);
      var s, request, clock := Run(cfg, requests[..n]), requests[n].0, requests[n].1;
      CleanupKeepsQueues(cfg, s, clock);
      CleanupKeepsSessions(cfg, s, clock);
      var prepared := Cleanup(cfg, s, clock);
      assert prepared.lastSession + 1 !in prepared.sessions;
      ServedKeepsQueues(cfg, prepared, request, clock);
    }
  }

  lemma EveryRunIsConsistent(cfg: Config, requests: seq<(Request, Clock)>)
    ensures Inv(cfg, Run(cfg, requests))
  {
    RunKeepsPeople(cfg, requests);
    RunKeepsSessions(cfg, requests);
    RunKeepsQueues(cfg, requests);
  }

  /** Control authority is exclusive and never outlives what it rests on: in every
      run an open session is its vehicle's only one, both sides are online, not
      revoked, and the driver is permitted to drive that vehicle. */
  lemma AuthorityIsExclusive(cfg: Config, requests: seq<(Request, Clock)>, id: nat)
    requires Open(Run(cfg, requests), id)
    ensures var s := Run(cfg, requests);
      var session := s.sessions[id];
      && session.driver in s.drivers && session.vehicle in s.vehicles
      && session.driver !in s.revokedDrivers && session.vehicle !in s.revokedVehicles
      && cfg.Permitted(session.driver, session.vehicle)
      && (forall other | Open(s, other) && s.sessions[other].vehicle == session.vehicle :: other == id)
      && (forall other | Open(s, other) && s.sessions[other].token == session.token :: other == id)
  {
    RunKeepsPeople(cfg, requests);
    RunKeepsSessions(cfg, requests);
    var s := Run(cfg, requests);
    assert Live(s.sessions, id);
    forall other | Open(s, other) ensures Live(s.sessions, other) {
    }
  }

  /** Once a session is closed nothing is left of it in any queue. */
  lemma NothingOutlivesItsSession(cfg: Config, requests: seq<(Request, Clock)>, id: nat)
    requires !Open(Run(cfg, requests), id)
    ensures var mail := Run(cfg, requests).mail;
      && (forall key | key in mail.queues.Keys + mail.control.Keys + mail.cursors.Keys :: key.session != id)
      && (forall stream | stream in mail.accepted :: stream.session != id)
  {
    RunKeepsQueues(cfg, requests);
    var s := Run(cfg, requests);
    forall key | key in s.mail.queues.Keys + s.mail.control.Keys + s.mail.cursors.Keys
      ensures KeyFits(s.sessions, key)
    {
    }
    forall stream | stream in s.mail.accepted ensures StreamFits(s.sessions, stream) {
    }
  }
}
