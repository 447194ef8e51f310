/** Presence, tokens, sessions and mobile approvals of the signaling service, as
    functions of its state. Random tokens and request ids are modelled as numbers
    that are never drawn twice; the number zero stands for an absent token. */
module Cloud {
  import opened ControlTypes
  import opened Mailboxes

  datatype Presence = Presence(connection: string, generation: nat, lastSeen: int)

  datatype DriverToken = DriverToken(driver: string, expiresAt: int, generation: nat)

  /** Reserved, connecting and stopping never outlive the request that passes
      through them. */
  datatype SessionState = Active | Closed

  datatype Session = Session(driver: string, vehicle: string, state: SessionState, token: nat, expiresAt: int)
  {
    function Ended(): Session {
      this.(state := Closed, token := 0, expiresAt := 0)
    }
  }

  datatype ApprovalState = Pending | Approved | Rejected | Cancelled | Expired | Consumed

  datatype Approval = Approval(
    id: nat, driver: string, state: ApprovalState, decidedBy: string,
    driverGeneration: nat, vehicleGeneration: nat, deadline: int, session: nat)
  {
    predicate Live() {
      state == Pending || state == Approved || state == Rejected
    }
  }

  /** What happened to approvals and sessions, in order. `request` is zero when
      the vehicle needs no approval. */
  datatype Event =
    | Requested(request: nat, driver: string, vehicle: string,
                driverGeneration: nat, vehicleGeneration: nat, deadline: int)
    | Decided(request: nat, approved: bool, decidedBy: string, clock: int)
    | Created(session: nat, request: nat, driver: string, vehicle: string,
              driverGeneration: nat, vehicleGeneration: nat, clock: int)

  datatype Config = Config(
    driverPasswords: map<string, string>, deviceTokens: map<string, string>,
    permissions: map<string, set<string>>, approvalVehicles: set<string>,
    tokenTtlMs: int, controlTokenTtlMs: int, approvalTimeoutMs: int,
    vehicleTimeoutMs: int, driverTimeoutMs: int, ttl: Ttl)
  {
    predicate Permitted(driver: string, vehicle: string) {
      driver in permissions && vehicle in permissions[driver]
    }
  }

  datatype State = State(
    tokens: map<nat, DriverToken>, drivers: map<string, Presence>, vehicles: map<string, Presence>,
    sessions: map<nat, Session>, revokedDrivers: set<string>, revokedVehicles: set<string>,
    approvals: map<string, Approval>, generation: nat, lastSession: nat, lastSecret: nat,
    mail: Mail, log: seq<Event>)

  const EMPTY: State := State(map[], map[], map[], map[], {}, {}, map[], 0, 0, 0, NO_MAIL, [])

  /** Wall-clock and steady time at the start of a request. */
  datatype Clock = Clock(wall: int, steady: int)

  /** Why a request was refused. */
  datatype Reason =
    | DriverRevoked | InvalidDriverToken | DriverTokenExpired | DriverConnectionReplaced | VehicleRevoked
    | InvalidDeviceToken | VehicleIsOffline | StaleGeneration | UnknownSession | SessionNotActive
    | NotAParticipant | UnknownDriver | UnknownVehicle | InvalidDriverCredentials | DriverAlreadyOnline
    | OnlyTheDriverRenews | RecipientNotAParticipant | RecipientIsSender | InvalidRoute | WrongControlToken
    | SequenceConflict | UnknownRequest | ApprovalNotPending | DecisionNotSaved | RequestNotSaved
    | ApprovalPending | ApprovalStale | ApprovalEnded | ApprovalBusy | ApprovalRejected
    | AuthorityNotGranted | AuthorityDisabled | ApprovalNotConsumed | VehicleNotPermitted | VehicleNotOnline
    | AuthorityTaken

  datatype Reply = Done | Refused(reason: Reason)

  // ---------------------------------------------------------------------
  // Closing sessions
  // ---------------------------------------------------------------------

  predicate Open(s: State, id: nat) {
    id in s.sessions && s.sessions[id].state != Closed
  }

  function OpenForDrivers(s: State, drivers: set<string>): set<nat> {
    set id | id in s.sessions && s.sessions[id].state != Closed && s.sessions[id].driver in drivers
  }

  function OpenForVehicles(s: State, vehicles: set<string>): set<nat> {
    set id | id in s.sessions && s.sessions[id].state != Closed && s.sessions[id].vehicle in vehicles
  }

  /** The participants of the sessions in `ids`. */
  predicate Belongs(sessions: map<nat, Session>, ids: set<nat>, session: nat, who: string) {
    session in ids && session in sessions
    && (who == sessions[session].driver || who == sessions[session].vehicle)
  }

  /** The sender streams a session's end erases; a vehicle has no native one. */
  predicate StreamBelongs(sessions: map<nat, Session>, ids: set<nat>, stream: Stream) {
    stream.session in ids && stream.session in sessions
    && (stream.sender == sessions[stream.session].driver
        || (!stream.native && stream.sender == sessions[stream.session].vehicle))
  }

  function Outside<V>(entries: map<Key, V>, sessions: map<nat, Session>, ids: set<nat>): map<Key, V> {
    map k | k in entries && !Belongs(sessions, ids, k.session, k.who) :: entries[k]
  }

  function StreamsOutside<V>(entries: map<Stream, V>, sessions: map<nat, Session>, ids: set<nat>): map<Stream, V> {
    map k | k in entries && !StreamBelongs(sessions, ids, k) :: entries[k]
  }

  function EraseMail(mail: Mail, sessions: map<nat, Session>, ids: set<nat>): Mail {
    Mail(
      Outside(mail.queues, sessions, ids), Outside(mail.control, sessions, ids),
      StreamsOutside(mail.accepted, sessions, ids), Outside(mail.cursors, sessions, ids))
  }

  function EndSessions(sessions: map<nat, Session>, ids: set<nat>): map<nat, Session> {
    map id | id in sessions :: if id in ids then sessions[id].Ended() else sessions[id]
  }

  function CloseIds(s: State, ids: set<nat>): State {
    s.(sessions := EndSessions(s.sessions, ids), mail := EraseMail(s.mail, s.sessions, ids))
  }

  // ---------------------------------------------------------------------
  // Cleanup, which starts every request
  // ---------------------------------------------------------------------

  /** The online drivers whose current connection one of `dead` belongs to. */
  function DriversOf(s: State, dead: set<nat>): set<string> {
    set d | d in s.drivers
      && exists t :: t in dead && t in s.tokens && s.tokens[t].driver == d
           && s.tokens[t].generation == s.drivers[d].generation
  }

  function DropTokens(s: State, dead: set<nat>): State {
    var gone := DriversOf(s, dead);
    CloseIds(s.(tokens := s.tokens - dead, drivers := s.drivers - gone), OpenForDrivers(s, gone))
  }

  function ExpiredTokens(s: State, now: int): set<nat> {
    set t | t in s.tokens && now >= s.tokens[t].expiresAt
  }

  function ExpiredSessions(s: State, now: int): set<nat> {
    set id | id in s.sessions && s.sessions[id].state != Closed
      && s.sessions[id].expiresAt > 0 && now >= s.sessions[id].expiresAt
  }

  function DropVehicles(s: State, gone: set<string>): State {
    CloseIds(s.(vehicles := s.vehicles - gone), OpenForVehicles(s, gone))
  }

  function SilentVehicles(cfg: Config, s: State, now: int): set<string> {
    set v | v in s.vehicles && now - s.vehicles[v].lastSeen >= cfg.vehicleTimeoutMs
  }

  /** The tokens of the current connections of `gone`. */
  function TokensOf(s: State, gone: set<string>): set<nat> {
    set t | t in s.tokens && s.tokens[t].driver in gone && s.tokens[t].driver in s.drivers
      && s.tokens[t].generation == s.drivers[s.tokens[t].driver].generation
  }

  function DropDrivers(s: State, gone: set<string>): State {
    CloseIds(
      s.(tokens := s.tokens - TokensOf(s, gone), drivers := s.drivers - gone), OpenForDrivers(s, gone))
  }

  function SilentDrivers(cfg: Config, s: State, now: int): set<string> {
    set d | d in s.drivers && now - s.drivers[d].lastSeen >= cfg.driverTimeoutMs
  }

  /** Both connections of the approval are still the current ones. */
  predicate Current(s: State, vehicle: string, a: Approval) {
    && a.driver in s.drivers && vehicle in s.vehicles
    && s.drivers[a.driver].generation == a.driverGeneration
    && s.vehicles[vehicle].generation == a.vehicleGeneration
    && a.driver !in s.revokedDrivers && vehicle !in s.revokedVehicles
  }

  function Refreshed(s: State, vehicle: string, a: Approval, steady: int): Approval {
    if !a.Live() then a
    else if !Current(s, vehicle, a) then a.(state := Cancelled)
    else if steady >= a.deadline then a.(state := Expired)
    else a
  }

  function CleanupApprovals(s: State, steady: int): State {
    s.(approvals := map v | v in s.approvals :: Refreshed(s, v, s.approvals[v], steady))
  }

  function CleanupConnections(cfg: Config, s: State, now: int): State {
    var s1 := DropTokens(s, ExpiredTokens(s, now));
    var s2 := CloseIds(s1, ExpiredSessions(s1, now));
    var s3 := DropVehicles(s2, SilentVehicles(cfg, s2, now));
    DropDrivers(s3, SilentDrivers(cfg, s3, now))
  }

  function Cleanup(cfg: Config, s: State, clock: Clock): State {
    CleanupApprovals(CleanupConnections(cfg, s, clock.wall), clock.steady)
  }

  // ---------------------------------------------------------------------
  // Credentials
  // ---------------------------------------------------------------------

  function DriverFault(s: State, driver: string, token: nat, now: int): Option<Reason> {
    if driver in s.revokedDrivers then Some(DriverRevoked)
    else if token == 0 || token !in s.tokens || s.tokens[token].driver != driver then
      Some(InvalidDriverToken)
    else if now >= s.tokens[token].expiresAt then Some(DriverTokenExpired)
    else if driver !in s.drivers || s.drivers[driver].generation != s.tokens[token].generation then
      Some(DriverConnectionReplaced)
    else None
  }

  function DeviceFault(cfg: Config, s: State, vehicle: string, deviceToken: string): Option<Reason> {
    if vehicle in s.revokedVehicles then Some(VehicleRevoked)
    else if deviceToken == "" || vehicle !in cfg.deviceTokens || cfg.deviceTokens[vehicle] != deviceToken then
      Some(InvalidDeviceToken)
    else None
  }

  function ConnectionFault(
    cfg: Config, s: State, vehicle: string, deviceToken: string, generation: nat): Option<Reason>
  {
    var device := DeviceFault(cfg, s, vehicle, deviceToken);
    if device.Some? then device
    else if vehicle !in s.vehicles then Some(VehicleIsOffline)
    else if generation == 0 || s.vehicles[vehicle].generation != generation then
      Some(StaleGeneration)
    else None
  }

  function SeenDriver(s: State, driver: string, now: int): State
    requires driver in s.drivers
  {
    s.(drivers := s.drivers[driver := s.drivers[driver].(lastSeen := now)])
  }

  function SeenVehicle(s: State, vehicle: string, now: int): State
    requires vehicle in s.vehicles
  {
    s.(vehicles := s.vehicles[vehicle := s.vehicles[vehicle].(lastSeen := now)])
  }

  /** How a participant of a session proves who it is. */
  datatype Credential = ByDriver(token: nat) | ByVehicle(deviceToken: string, generation: nat)

  /** Looks up the active session, checks that `actor` takes part in it and that
      the credential is the actor's, and notes that the actor was seen. */
  function Authorise(cfg: Config, s: State, id: nat, actor: string, credential: Credential, now: int)
    : (State, Reply)
  {
    if id !in s.sessions then (s, Refused(UnknownSession))
    else if s.sessions[id].state != Active then (s, Refused(SessionNotActive))
    else if actor == s.sessions[id].driver then
      if !credential.ByDriver? then (s, Refused(InvalidDriverToken))
      else
        var fault := DriverFault(s, actor, credential.token, now);
        if fault.Some? then (s, Refused(fault.value)) else (SeenDriver(s, actor, now), Done)
    else if actor == s.sessions[id].vehicle then
      if !credential.ByVehicle? then (s, Refused(InvalidDeviceToken))
      else
        var fault := ConnectionFault(cfg, s, actor, credential.deviceToken, credential.generation);
        if fault.Some? then (s, Refused(fault.value)) else (SeenVehicle(s, actor, now), Done)
    else (s, Refused(NotAParticipant))
  }

  // ---------------------------------------------------------------------
  // Requests, each after its cleanup
  // ---------------------------------------------------------------------

  function AfterDriverRevocation(cfg: Config, s: State, driver: string): (State, Reply) {
    if driver !in cfg.driverPasswords then (s, Refused(UnknownDriver))
    else
      var s1 := CloseIds(s, OpenForDrivers(s, {driver}));
      (s1.(revokedDrivers := s.revokedDrivers + {driver},
           drivers := s.drivers - {driver},
           tokens := s.tokens - (set t | t in s.tokens && s.tokens[t].driver == driver)), Done)
  }

  function AfterDriverRestoration(cfg: Config, s: State, driver: string): (State, Reply) {
    if driver !in cfg.driverPasswords then (s, Refused(UnknownDriver))
    else (s.(revokedDrivers := s.revokedDrivers - {driver}), Done)
  }

  function AfterVehicleRevocation(cfg: Config, s: State, vehicle: string): (State, Reply) {
    if vehicle !in cfg.deviceTokens then (s, Refused(UnknownVehicle))
    else
      (DropVehicles(s, {vehicle}).(revokedVehicles := s.revokedVehicles + {vehicle}), Done)
  }

  function AfterVehicleRestoration(cfg: Config, s: State, vehicle: string): (State, Reply) {
    if vehicle !in cfg.deviceTokens then (s, Refused(UnknownVehicle))
    else (s.(revokedVehicles := s.revokedVehicles - {vehicle}), Done)
  }

  function AfterLogin(cfg: Config, s: State, driver: string, password: string, now: int): (State, Reply) {
    if driver !in cfg.driverPasswords || cfg.driverPasswords[driver] != password then
      (s, Refused(InvalidDriverCredentials))
    else if driver in s.revokedDrivers then (s, Refused(DriverRevoked))
    else if driver in s.drivers then (s, Refused(DriverAlreadyOnline))
    else
      var generation := s.generation + 1;
      (s.(generation := generation,
          lastSecret := s.lastSecret + 1,
          tokens := s.tokens[s.lastSecret + 1 := DriverToken(driver, now + cfg.tokenTtlMs, generation)],
          drivers := s.drivers[driver := Presence("", generation, now)]), Done)
  }

  function AfterDriverHeartbeat(s: State, driver: string, token: nat, now: int): (State, Reply) {
    var fault := DriverFault(s, driver, token, now);
    if fault.Some? then (s, Refused(fault.value)) else (SeenDriver(s, driver, now), Done)
  }

  function AfterLogout(s: State, driver: string, token: nat, now: int): (State, Reply) {
    var fault := DriverFault(s, driver, token, now);
    if fault.Some? then (s, Refused(fault.value))
    else
      var s1 := CloseIds(s, OpenForDrivers(s, {driver}));
      (s1.(tokens := s.tokens - {token}, drivers := s.drivers - {driver}), Done)
  }

  function AfterVehicleOnline(
    cfg: Config, s: State, vehicle: string, deviceToken: string, connection: string, now: int): (State, Reply)
  {
    var fault := DeviceFault(cfg, s, vehicle, deviceToken);
    if fault.Some? then (s, Refused(fault.value))
    else if vehicle in s.vehicles && s.vehicles[vehicle].connection == connection then
      (SeenVehicle(s, vehicle, now), Done)
    else
      var s1 := if vehicle in s.vehicles then CloseIds(s, OpenForVehicles(s, {vehicle})) else s;
      (s1.(generation := s.generation + 1,
           vehicles := s.vehicles[vehicle := Presence(connection, s.generation + 1, now)]), Done)
  }

  function AfterVehicleHeartbeat(
    cfg: Config, s: State, vehicle: string, deviceToken: string, generation: nat, now: int): (State, Reply)
  {
    var fault := ConnectionFault(cfg, s, vehicle, deviceToken, generation);
    if fault.Some? then (s, Refused(fault.value)) else (SeenVehicle(s, vehicle, now), Done)
  }

  function AfterVehicleOffline(
    cfg: Config, s: State, vehicle: string, deviceToken: string, generation: nat): (State, Reply)
  {
    var fault := ConnectionFault(cfg, s, vehicle, deviceToken, generation);
    if fault.Some? then (s, Refused(fault.value)) else (DropVehicles(s, {vehicle}), Done)
  }

  function AfterSessionEnd(cfg: Config, s: State, id: nat, actor: string, credential: Credential, now: int)
    : (State, Reply)
  {
    var (s1, reply) := Authorise(cfg, s, id, actor, credential, now);
    if reply.Refused? then (s1, reply) else (CloseIds(s1, {id}), Done)
  }

  function AfterRenewal(cfg: Config, s: State, id: nat, actor: string, credential: Credential, now: int)
    : (State, Reply)
  {
    if Open(s, id) && actor == s.sessions[id].vehicle != s.sessions[id].driver then
      (s, Refused(OnlyTheDriverRenews))
    else
      var (s1, reply) := Authorise(cfg, s, id, actor, credential, now);
      if reply.Refused? then (s1, reply)
      else
        (s1.(sessions := s1.sessions[id := s1.sessions[id].(expiresAt := now + cfg.controlTokenTtlMs)]), Done)
  }

  // ---------------------------------------------------------------------
  // Messages
  // ---------------------------------------------------------------------

  /** Which kinds may travel from the driver to the vehicle and which back. */
  predicate RouteAllowed(kind: Kind, driverToVehicle: bool) {
    match kind
    case WebrtcOffer => !driverToVehicle
    case WebrtcAnswer => driverToVehicle
    case MediaCapabilities => driverToVehicle
    case MediaFallback => driverToVehicle
    case ControlCommand => driverToVehicle
    case _ => true
  }

  /** `controlToken` is the token inside a control command's payload. */
  function AfterMessage(
    cfg: Config, s: State, m: Submission, controlToken: nat, credential: Credential, now: int, monotonic: int)
    : (State, Reply)
  {
    var (s1, reply) := Authorise(cfg, s, m.session, m.sender, credential, now);
    if reply.Refused? then (s1, reply)
    else
      var session := s1.sessions[m.session];
      if m.recipient != session.driver && m.recipient != session.vehicle then
        (s1, Refused(RecipientNotAParticipant))
      else if m.sender == m.recipient then
        (s1, Refused(RecipientIsSender))
      else if !RouteAllowed(m.kind, m.sender == session.driver && m.recipient == session.vehicle) then
        (s1, Refused(InvalidRoute))
      else if m.kind == ControlCommand && controlToken != session.token then
        (s1, Refused(WrongControlToken))
      else
        var (mail, receipt) := Enqueue(s1.mail, m, monotonic);
        (s1.(mail := mail),
         if receipt.Acknowledged? then Done else Refused(SequenceConflict))
  }

  function AfterReading(
    cfg: Config, s: State, id: nat, actor: string, credential: Credential, controlOnly: bool,
    now: int, monotonic: int): (State, Reply)
  {
    var (s1, reply) := Authorise(cfg, s, id, actor, credential, now);
    if reply.Refused? then (s1, reply)
    else (s1.(mail := Take(s1.mail, Key(id, actor), controlOnly, monotonic, cfg.ttl).0), Done)
  }

  function AfterAcknowledgement(
    cfg: Config, s: State, id: nat, actor: string, credential: Credential, cursor: nat, controlOnly: bool,
    now: int): (State, Reply)
  {
    var (s1, reply) := Authorise(cfg, s, id, actor, credential, now);
    if reply.Refused? then (s1, reply)
    else (s1.(mail := Mailboxes.Acknowledge(s1.mail, Key(id, actor), cursor, controlOnly).0), Done)
  }

  // ---------------------------------------------------------------------
  // Mobile approvals and session creation
  // ---------------------------------------------------------------------

  /** An approver's decision on the request of `vehicle`; `audited` is whether
      the decision could be logged. */
  function AfterVerdict(
    cfg: Config, s: State, vehicle: string, request: nat, approve: bool, approver: string, audited: bool,
    steady: int): (State, Reply)
  {
    if vehicle !in s.approvals || s.approvals[vehicle].id != request || vehicle !in cfg.approvalVehicles then
      (s, Refused(UnknownRequest))
    else
      var a := s.approvals[vehicle];
      var next := if approve then Approved else Rejected;
      if a.state == next && a.decidedBy == approver then (s, Done)
      else if a.state != Pending then (s, Refused(ApprovalNotPending))
      else if !audited then (s, Refused(DecisionNotSaved))
      else
        (s.(approvals := s.approvals[vehicle := a.(state := next, decidedBy := approver)],
            log := s.log + [Decided(request, approve, approver, steady)]), Done)
  }

  /** The approver API drops stale approvals once more before it decides. */
  function AfterDecision(
    cfg: Config, s: State, vehicle: string, request: nat, approve: bool, approver: string, audited: bool,
    steady: int): (State, Reply)
  {
    AfterVerdict(cfg, CleanupApprovals(s, steady), vehicle, request, approve, approver, audited, steady)
  }

  /** A fresh pending request of an online driver for an online vehicle. */
  function AfterRequest(cfg: Config, s: State, driver: string, vehicle: string, audited: bool, steady: int)
    : (State, Reply)
    requires driver in s.drivers && vehicle in s.vehicles
  {
    if !audited then (s, Refused(RequestNotSaved))
    else
      var a := Approval(
        s.lastSecret + 1, driver, Pending, "", s.drivers[driver].generation, s.vehicles[vehicle].generation,
        steady + cfg.approvalTimeoutMs, 0);
      (s.(lastSecret := s.lastSecret + 1,
          approvals := s.approvals[vehicle := a],
          log := s.log + [Requested(
            a.id, driver, vehicle, a.driverGeneration, a.vehicleGeneration, a.deadline)]),
       Refused(ApprovalPending))
  }

  /** Done only when `driver` holds an approved request for `vehicle`, or the
      vehicle needs none. `request` is zero when the driver names no request. */
  function RequireApproval(
    cfg: Config, s: State, driver: string, vehicle: string, request: nat, audited: bool, steady: int)
    : (State, Reply)
    requires driver in s.drivers && vehicle in s.vehicles
  {
    if vehicle !in cfg.approvalVehicles then
      (s, if request != 0 then Refused(ApprovalStale) else Done)
    else
      var s1 := CleanupApprovals(s, steady);
      var found := vehicle in s1.approvals;
      if request != 0 && !(found && s1.approvals[vehicle].id == request && s1.approvals[vehicle].driver == driver)
      then (s1, Refused(ApprovalStale))
      else if request != 0 && !s1.approvals[vehicle].Live() then (s1, Refused(ApprovalEnded))
      else if found && s1.approvals[vehicle].Live() then
        (s1,
         if s1.approvals[vehicle].driver != driver then Refused(ApprovalBusy)
         else match s1.approvals[vehicle].state
           case Approved => Done
           case Rejected => Refused(ApprovalRejected)
           case _ => Refused(ApprovalPending))
      else AfterRequest(cfg, s1, driver, vehicle, audited, steady)
  }

  /** Which audit records could be written. `created` is false when recording the
      new session throws, `granted` when its final record fails. */
  datatype Audits = Audits(
    requested: bool, preflight: bool, consumption: bool, requestedAgain: bool, created: bool, granted: bool)

  /** The session comes into being and spends the vehicle's approval. */
  function WithSession(cfg: Config, s: State, session: Session, steady: int): State
    requires session.driver in s.drivers && session.vehicle in s.vehicles
    requires session.vehicle in cfg.approvalVehicles ==> session.vehicle in s.approvals
  {
    var id := s.lastSession + 1;
    var vehicle := session.vehicle;
    var approval := vehicle in cfg.approvalVehicles;
    s.(lastSession := id,
       lastSecret := s.lastSecret + 1,
       sessions := s.sessions[id := session],
       approvals :=
         if approval then s.approvals[vehicle := s.approvals[vehicle].(state := Consumed, session := id)]
         else s.approvals,
       log := s.log + [Created(
         id, if approval then s.approvals[vehicle].id else 0, session.driver, vehicle,
         s.drivers[session.driver].generation, s.vehicles[vehicle].generation, steady)])
  }

  /** A new session is closed at once when the audit log fails. When it is the
      first record that fails, the session keeps its token. */
  function AfterGrant(
    cfg: Config, s: State, driver: string, vehicle: string, audits: Audits, now: int, steady: int): (State, Reply)
    requires driver in s.drivers && vehicle in s.vehicles
    requires vehicle in cfg.approvalVehicles ==> vehicle in s.approvals
  {
    var session := Session(driver, vehicle, Active, s.lastSecret + 1, now + cfg.controlTokenTtlMs);
    if !audits.created then (WithSession(cfg, s, session.(state := Closed), steady), Refused(AuthorityNotGranted))
    else
      var s1 := WithSession(cfg, s, session, steady);
      if !audits.granted then (CloseIds(s1, {s1.lastSession}), Refused(AuthorityNotGranted)) else (s1, Done)
  }

  /** The approval is checked twice, at `steady` and, because writing the audit
      log takes time, again at `later`. */
  function AfterChecks(
    cfg: Config, s: State, driver: string, vehicle: string, request: nat, audits: Audits, clock: Clock, later: int)
    : (State, Reply)
    requires driver in s.drivers && vehicle in s.vehicles
  {
    var (s1, first) := RequireApproval(cfg, s, driver, vehicle, request, audits.requested, clock.steady);
    if first.Refused? then (s1, first)
    else if !audits.preflight then (s1, Refused(AuthorityDisabled))
    else if vehicle !in cfg.approvalVehicles then
      AfterGrant(cfg, s1, driver, vehicle, audits, clock.wall, later)
    else if !audits.consumption then (s1, Refused(ApprovalNotConsumed))
    else
      var (s2, second) := RequireApproval(cfg, s1, driver, vehicle, request, audits.requestedAgain, later);
      if second.Refused? then (s2, second)
      else AfterGrant(cfg, s2, driver, vehicle, audits, clock.wall, later)
  }

  function AfterSessionRequest(
    cfg: Config, s: State, driver: string, vehicle: string, token: nat, request: nat, audits: Audits,
    clock: Clock, later: int): (State, Reply)
  {
    var fault := DriverFault(s, driver, token, clock.wall);
    if fault.Some? then (s, Refused(fault.value))
    else
      var s1 := SeenDriver(s, driver, clock.wall);
      if !cfg.Permitted(driver, vehicle) then (s1, Refused(VehicleNotPermitted))
      else if vehicle !in s1.vehicles then (s1, Refused(VehicleNotOnline))
      else if OpenForVehicles(s1, {vehicle}) != {} then (s1, Refused(AuthorityTaken))
      else AfterChecks(cfg, s1, driver, vehicle, request, audits, clock, later)
  }

  function AfterCancellation(
    cfg: Config, s: State, driver: string, vehicle: string, token: nat, request: nat, now: int): (State, Reply)
  {
    var fault := DriverFault(s, driver, token, now);
    if fault.Some? then (s, Refused(fault.value))
    else
      var s1 := SeenDriver(s, driver, now);
      if vehicle !in s1.approvals || s1.approvals[vehicle].id != request || s1.approvals[vehicle].driver != driver
        || s1.approvals[vehicle].driverGeneration != s1.drivers[driver].generation
      then (s1, Refused(ApprovalStale))
      else
        var a := s1.approvals[vehicle];
        var s2 := if Open(s1, a.session) then CloseIds(s1, {a.session}) else s1;
        (if a.state in {Pending, Approved, Consumed}
         then s2.(approvals := s2.approvals[vehicle := a.(state := Cancelled)])
         else s2,
         Done)
  }

  // ---------------------------------------------------------------------
  // Runs
  // ---------------------------------------------------------------------

  datatype Request =
    | Reap
    | RevokeDriver(driver: string)
    | RestoreDriver(driver: string)
    | RevokeVehicle(vehicle: string)
    | RestoreVehicle(vehicle: string)
    | Login(driver: string, password: string)
    | DriverHeartbeat(driver: string, token: nat)
    | Logout(driver: string, token: nat)
    | GoOnline(vehicle: string, deviceToken: string, connection: string)
    | VehicleHeartbeat(vehicle: string, deviceToken: string, generation: nat)
    | GoOffline(vehicle: string, deviceToken: string, generation: nat)
    | Decide(vehicle: string, request: nat, approve: bool, approver: string, audited: bool, later: int)
    | CreateSession(driver: string, vehicle: string, token: nat, request: nat, audits: Audits, later: int)
    | CancelApproval(driver: string, vehicle: string, token: nat, request: nat)
    | EndSession(id: nat, actor: string, credential: Credential)
    | RenewControl(id: nat, actor: string, credential: Credential)
    | Send(message: Submission, controlToken: nat, credential: Credential, monotonic: int)
    | Read(id: nat, actor: string, credential: Credential, controlOnly: bool, monotonic: int)
    | Acknowledge(id: nat, actor: string, credential: Credential, cursor: nat, controlOnly: bool)
  {
    /** Requests about who is online. */
    predicate AboutPresence() {
      Reap? || RevokeDriver? || RestoreDriver? || RevokeVehicle? || RestoreVehicle? || Login? || DriverHeartbeat?
      || Logout? || GoOnline? || VehicleHeartbeat? || GoOffline?
    }

    /** Requests about mobile approvals and the sessions that need them. */
    predicate AboutApproval() {
      Decide? || CreateSession? || CancelApproval?
    }
  }

  /** What a request does once the expired connections are gone. */
  function Served(cfg: Config, s: State, request: Request, clock: Clock): (State, Reply) {
    var now := clock.wall;
    match request
    case Reap => (s, Done)
    case RevokeDriver(driver) => AfterDriverRevocation(cfg, s, driver)
    case RestoreDriver(driver) => AfterDriverRestoration(cfg, s, driver)
    case RevokeVehicle(vehicle) => AfterVehicleRevocation(cfg, s, vehicle)
    case RestoreVehicle(vehicle) => AfterVehicleRestoration(cfg, s, vehicle)
    case Login(driver, password) => AfterLogin(cfg, s, driver, password, now)
    case DriverHeartbeat(driver, token) => AfterDriverHeartbeat(s, driver, token, now)
    case Logout(driver, token) => AfterLogout(s, driver, token, now)
    case GoOnline(vehicle, deviceToken, connection) =>
      AfterVehicleOnline(cfg, s, vehicle, deviceToken, connection, now)
    case VehicleHeartbeat(vehicle, deviceToken, generation) =>
      AfterVehicleHeartbeat(cfg, s, vehicle, deviceToken, generation, now)
    case GoOffline(vehicle, deviceToken, generation) =>
      AfterVehicleOffline(cfg, s, vehicle, deviceToken, generation)
    case Decide(vehicle, id, approve, approver, audited, later) =>
      AfterDecision(cfg, s, vehicle, id, approve, approver, audited, later)
    case CreateSession(driver, vehicle, token, id, audits, later) =>
      AfterSessionRequest(cfg, s, driver, vehicle, token, id, audits, clock, later)
    case CancelApproval(driver, vehicle, token, id) =>
      AfterCancellation(cfg, s, driver, vehicle, token, id, now)
    case EndSession(id, actor, credential) => AfterSessionEnd(cfg, s, id, actor, credential, now)
    case RenewControl(id, actor, credential) => AfterRenewal(cfg, s, id, actor, credential, now)
    case Send(message, controlToken, credential, monotonic) =>
      AfterMessage(cfg, s, message, controlToken, credential, now, monotonic)
    case Read(id, actor, credential, controlOnly, monotonic) =>
      AfterReading(cfg, s, id, actor, credential, controlOnly, now, monotonic)
    case Acknowledge(id, actor, credential, cursor, controlOnly) =>
      AfterAcknowledgement(cfg, s, id, actor, credential, cursor, controlOnly, now)
  }

  /** Every request drops expired connections first. */
  function Step(cfg: Config, s: State, request: Request, clock: Clock): State {
    Served(cfg, Cleanup(cfg, s, clock), request, clock).0
  }

  function Run(cfg: Config, requests: seq<(Request, Clock)>): State {
    if requests == [] then EMPTY
    else
      var n := |requests| - 1;
      Step(cfg, Run(cfg, requests[..n]), requests[n].0, requests[n].1)
  }
}
