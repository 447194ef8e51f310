/** Mobile approvals over every run of the signaling service: a session of a
    vehicle that needs approval spends one approval, and no approval is spent twice. */
module CloudApprovals {
  import opened ControlTypes
  import opened Cloud
  import opened Mailboxes

  // ---------------------------------------------------------------------
  // What the history must say
  // ---------------------------------------------------------------------

  ghost predicate DecidedInTime(log: seq<Event>, request: nat, deadline: int) {
    exists i | 0 <= i < |log| ::
      log[i].Decided? && log[i].request == request && log[i].approved && log[i].clock < deadline
  }

  /** The approval that `e` spends, as it stood in `log`: asked for by the same
      driver for the same vehicle, on the connections both still have, approved
      before its deadline and spent before its deadline. */
  ghost predicate Warrant(log: seq<Event>, e: Event, deadline: int)
    requires e.Created?
  {
    && Requested(e.request, e.driver, e.vehicle, e.driverGeneration, e.vehicleGeneration, deadline) in log
    && DecidedInTime(log, e.request, deadline)
    && e.clock < deadline
  }

  ghost predicate Warranted(log: seq<Event>, e: Event)
    requires e.Created?
  {
    exists deadline :: Warrant(log, e, deadline)
  }

  ghost predicate EventFits(cfg: Config, log: seq<Event>, i: nat)
    requires i < |log| && log[i].Created?
  {
    if log[i].vehicle in cfg.approvalVehicles then log[i].request != 0 && Warranted(log[..i], log[i])
    else log[i].request == 0
  }

  ghost predicate EveryCreationFits(cfg: Config, log: seq<Event>) {
    forall i | 0 <= i < |log| && log[i].Created? :: EventFits(cfg, log, i)
  }

  /** No request was spent on two sessions and no session was created twice. */
  ghost predicate SpentOnce(log: seq<Event>) {
    forall i, j | 0 <= i < j < |log| && log[i].Created? && log[j].Created? ::
      log[i].session != log[j].session && (log[i].request != 0 ==> log[i].request != log[j].request)
  }

  /** A request number is drawn once. */
  ghost predicate RequestedOnce(log: seq<Event>) {
    forall i, j | 0 <= i < j < |log| && log[i].Requested? && log[j].Requested? :: log[i].request != log[j].request
  }

  ghost predicate Numbers(log: seq<Event>, lastSecret: nat, lastSession: nat) {
    forall i | 0 <= i < |log| :: log[i].request <= lastSecret && (log[i].Created? ==> log[i].session <= lastSession)
  }

  ghost predicate Unspent(log: seq<Event>, request: nat) {
    forall i | 0 <= i < |log| && log[i].Created? :: log[i].request != request
  }

  ghost predicate ApprovalFits(log: seq<Event>, lastSecret: nat, vehicle: string, a: Approval) {
    && 0 < a.id <= lastSecret
    && Requested(a.id, a.driver, vehicle, a.driverGeneration, a.vehicleGeneration, a.deadline) in log
    && (a.state == Approved ==> DecidedInTime(log, a.id, a.deadline))
    && (a.Live() ==> Unspent(log, a.id))
  }

  ghost predicate ApprovalsFit(approvals: map<string, Approval>, log: seq<Event>, lastSecret: nat) {
    && (forall v | v in approvals :: ApprovalFits(log, lastSecret, v, approvals[v]))
    && (forall v, w | v in approvals && w in approvals && approvals[v].id == approvals[w].id :: v == w)
  }

  ghost predicate HasCreation(log: seq<Event>, id: nat, session: Session) {
    exists i | 0 <= i < |log| ::
      log[i].Created? && log[i].session == id && log[i].driver == session.driver && log[i].vehicle == session.vehicle
  }

  ghost predicate Recorded(sessions: map<nat, Session>, log: seq<Event>) {
    forall id | id in sessions :: HasCreation(log, id, sessions[id])
  }

  ghost predicate LogFits(cfg: Config, log: seq<Event>, lastSecret: nat, lastSession: nat) {
    EveryCreationFits(cfg, log) && SpentOnce(log) && RequestedOnce(log) && Numbers(log, lastSecret, lastSession)
  }

  ghost predicate Inv(cfg: Config, s: State) {
    && LogFits(cfg, s.log, s.lastSecret, s.lastSession)
    && ApprovalsFit(s.approvals, s.log, s.lastSecret)
    && Recorded(s.sessions, s.log)
  }

  // ---------------------------------------------------------------------
  // Requests that leave approvals alone
  // ---------------------------------------------------------------------

  ghost predicate SameSessions(sessions: map<nat, Session>, after: map<nat, Session>) {
    forall id | id in after ::
      id in sessions && after[id].driver == sessions[id].driver && after[id].vehicle == sessions[id].vehicle
  }

  ghost predicate Untouched(s: State, after: State) {
    && after.approvals == s.approvals && after.log == s.log
    && after.lastSecret >= s.lastSecret && after.lastSession == s.lastSession
    && SameSessions(s.sessions, after.sessions)
  }

  lemma UntouchedKeepsInv(cfg: Config, s: State, after: State)
    requires Inv(cfg, s) && Untouched(s, after)
    ensures Inv(cfg, after)
  {
    forall v | v in after.approvals ensures ApprovalFits(after.log, after.lastSecret, v, after.approvals[v]) {
      assert ApprovalFits(s.log, s.lastSecret, v, s.approvals[v]);
    }
    forall id | id in after.sessions ensures HasCreation(after.log, id, after.sessions[id]) {
      assert HasCreation(s.log, id, s.sessions[id]);
    }
  }

  lemma CloseIsUntouched(s: State, ids: set<nat>)
    ensures Untouched(s, CloseIds(s, ids))
  {
  }

  lemma CleanupConnectionsUntouched(cfg: Config, s: State, now: int)
    ensures Untouched(s, CleanupConnections(cfg, s, now))
  {
    var s1 := DropTokens(s, ExpiredTokens(s, now));
    CloseIsUntouched(s, OpenForDrivers(s, DriversOf(s, ExpiredTokens(s, now))));
    var s2 := CloseIds(s1, ExpiredSessions(s1, now));
    CloseIsUntouched(s1, ExpiredSessions(s1, now));
    var s3 := DropVehicles(s2, SilentVehicles(cfg, s2, now));
    CloseIsUntouched(s2, OpenForVehicles(s2, SilentVehicles(cfg, s2, now)));
    CloseIsUntouched(s3, OpenForDrivers(s3, SilentDrivers(cfg, s3, now)));
  }

  /** Dropping stale approvals only ever ends them. */
  lemma CleanupApprovalsKeepsInv(cfg: Config, s: State, steady: int)
    requires Inv(cfg, s)
    ensures Inv(cfg, CleanupApprovals(s, steady))
  {
    var after := CleanupApprovals(s, steady);
    forall v | v in after.approvals ensures ApprovalFits(after.log, after.lastSecret, v, after.approvals[v]) {
      assert ApprovalFits(s.log, s.lastSecret, v, s.approvals[v]);
    }
  }

  // ---------------------------------------------------------------------
  // A longer history
  // ---------------------------------------------------------------------

  lemma DecidedStays(log: seq<Event>, e: Event, request: nat, deadline: int)
    requires DecidedInTime(log, request, deadline)
    ensures DecidedInTime(log + [e], request, deadline)
  {
    var i :| 0 <= i < |log|
      && log[i].Decided? && log[i].request == request && log[i].approved && log[i].clock < deadline;
    assert (log + [e])[i] == log[i];
  }

  lemma ApprovalStays(log: seq<Event>, e: Event, lastSecret: nat, later: nat, vehicle: string, a: Approval)
    requires ApprovalFits(log, lastSecret, vehicle, a) && lastSecret <= later
    requires e.Created? && a.Live() ==> e.request != a.id
    ensures ApprovalFits(log + [e], later, vehicle, a)
  {
    if a.state == Approved {
      DecidedStays(log, e, a.id, a.deadline);
    }
  }

  lemma CreationsStay(cfg: Config, log: seq<Event>, e: Event)
    requires EveryCreationFits(cfg, log)
    requires e.Created? ==> EventFits(cfg, log + [e], |log|)
    ensures EveryCreationFits(cfg, log + [e])
  {
    var after := log + [e];
    forall i | 0 <= i < |after| && after[i].Created? ensures EventFits(cfg, after, i) {
      if i < |log| {
        assert after[i] == log[i] && after[..i] == log[..i];
        assert EventFits(cfg, log, i);
      }
    }
  }

  lemma RecordsStay(sessions: map<nat, Session>, log: seq<Event>, e: Event)
    requires Recorded(sessions, log)
    ensures Recorded(sessions, log + [e])
  {
    forall id | id in sessions ensures HasCreation(log + [e], id, sessions[id]) {
      assert HasCreation(log, id, sessions[id]);
      var i :| 0 <= i < |log| && log[i].Created? && log[i].session == id
        && log[i].driver == sessions[id].driver && log[i].vehicle == sessions[id].vehicle;
      assert (log + [e])[i] == log[i];
    }
  }

  // ---------------------------------------------------------------------
  // Deciding, requesting, creating and cancelling
  // ---------------------------------------------------------------------

  lemma VerdictKeepsInv(
    cfg: Config, s: State, vehicle: string, request: nat, approve: bool, approver: string, audited: bool,
    steady: int)
    requires Inv(cfg, s)
    requires vehicle in s.approvals && s.approvals[vehicle].state == Pending ==> steady < s.approvals[vehicle].deadline
    ensures Inv(cfg, AfterVerdict(cfg, s, vehicle, request, approve, approver, audited, steady).0)
  {
    var after := AfterVerdict(cfg, s, vehicle, request, approve, approver, audited, steady).0;
    if after != s {
      var e := Decided(request, approve, approver, steady);
      CreationsStay(cfg, s.log, e);
      RecordsStay(s.sessions, s.log, e);
      forall v | v in after.approvals ensures ApprovalFits(after.log, after.lastSecret, v, after.approvals[v]) {
        ApprovalStays(s.log, e, s.lastSecret, s.lastSecret, v, s.approvals[v]);
        assert v == vehicle && approve ==>
          after.log[|s.log|] == e && DecidedInTime(after.log, request, after.approvals[v].deadline);
      }
    }
  }

  lemma DecisionKeepsInv(
    cfg: Config, s: State, vehicle: string, request: nat, approve: bool, approver: string, audited: bool,
    steady: int)
    requires Inv(cfg, s)
    ensures Inv(cfg, AfterDecision(cfg, s, vehicle, request, approve, approver, audited, steady).0)
  {
    CleanupApprovalsKeepsInv(cfg, s, steady);
    VerdictKeepsInv(cfg, CleanupApprovals(s, steady), vehicle, request, approve, approver, audited, steady);
  }

  lemma RequestKeepsInv(cfg: Config, s: State, driver: string, vehicle: string, audited: bool, steady: int)
    requires Inv(cfg, s)
    requires driver in s.drivers && vehicle in s.vehicles
    ensures Inv(cfg, AfterRequest(cfg, s, driver, vehicle, audited, steady).0)
  {
    var after := AfterRequest(cfg, s, driver, vehicle, audited, steady).0;
    if after != s {
      var e := after.log[|s.log|];
      CreationsStay(cfg, s.log, e);
      RecordsStay(s.sessions, s.log, e);
      forall v | v in after.approvals ensures ApprovalFits(after.log, after.lastSecret, v, after.approvals[v]) {
        if v != vehicle {
          ApprovalStays(s.log, e, s.lastSecret, after.lastSecret, v, s.approvals[v]);
        }
      }
      forall v, w | v in after.approvals && w in after.approvals && after.approvals[v].id == after.approvals[w].id
        ensures v == w
      {
        assert v != vehicle ==> ApprovalFits(s.log, s.lastSecret, v, s.approvals[v]);
        assert w != vehicle ==> ApprovalFits(s.log, s.lastSecret, w, s.approvals[w]);
      }
    }
  }

  /** What the check gives to a caller it lets through. */
  ghost predicate ApprovalHolds(s: State, driver: string, vehicle: string, steady: int) {
    && vehicle in s.approvals && driver in s.drivers && vehicle in s.vehicles
    && s.approvals[vehicle].state == Approved && s.approvals[vehicle].driver == driver
    && Current(s, vehicle, s.approvals[vehicle]) && steady < s.approvals[vehicle].deadline
  }

  lemma CheckResult(
    cfg: Config, s: State, driver: string, vehicle: string, request: nat, audited: bool, steady: int)
    requires driver in s.drivers && vehicle in s.vehicles
    ensures var (after, reply) := RequireApproval(cfg, s, driver, vehicle, request, audited, steady);
      && after.drivers == s.drivers && after.vehicles == s.vehicles
      && after in {s, CleanupApprovals(s, steady),
                   AfterRequest(cfg, CleanupApprovals(s, steady), driver, vehicle, audited, steady).0}
      && (reply.Done? && vehicle in cfg.approvalVehicles ==> ApprovalHolds(after, driver, vehicle, steady))
  {
  }

  lemma CheckKeepsInv(
    cfg: Config, s: State, driver: string, vehicle: string, request: nat, audited: bool, steady: int)
    requires Inv(cfg, s)
    requires driver in s.drivers && vehicle in s.vehicles
    ensures var (after, reply) := RequireApproval(cfg, s, driver, vehicle, request, audited, steady);
      && Inv(cfg, after) && after.drivers == s.drivers && after.vehicles == s.vehicles
      && (reply.Done? && vehicle in cfg.approvalVehicles ==> ApprovalHolds(after, driver, vehicle, steady))
  {
    CheckResult(cfg, s, driver, vehicle, request, audited, steady);
    CleanupApprovalsKeepsInv(cfg, s, steady);
    RequestKeepsInv(cfg, CleanupApprovals(s, steady), driver, vehicle, audited, steady);
  }

  lemma CreationKeepsLog(
    cfg: Config, log: seq<Event>, lastSecret: nat, lastSession: nat, e: Event, deadline: int)
    requires LogFits(cfg, log, lastSecret, lastSession)
    requires e.Created? && e.session == lastSession + 1 && e.request <= lastSecret
    requires if e.vehicle in cfg.approvalVehicles
      then e.request != 0 && Unspent(log, e.request) && Warrant(log, e, deadline)
      else e.request == 0
    ensures LogFits(cfg, log + [e], lastSecret + 1, lastSession + 1)
  {
    assert (log + [e])[..|log|] == log;
    assert EventFits(cfg, log + [e], |log|);
    CreationsStay(cfg, log, e);
  }

  /** Every approval but the spent one stays as it was, and that one is dead. */
  lemma SpendingKeepsApprovals(
    approvals: map<string, Approval>, log: seq<Event>, lastSecret: nat, vehicle: string, e: Event)
    requires ApprovalsFit(approvals, log, lastSecret) && e.Created?
    requires if vehicle in approvals then e.request == approvals[vehicle].id else e.request == 0
    ensures ApprovalsFit(
      if vehicle in approvals then approvals[vehicle := approvals[vehicle].(state := Consumed, session := e.session)]
      else approvals,
      log + [e], lastSecret + 1)
  {
    var after :=
      if vehicle in approvals then approvals[vehicle := approvals[vehicle].(state := Consumed, session := e.session)]
      else approvals;
    forall v | v in after ensures ApprovalFits(log + [e], lastSecret + 1, v, after[v]) {
      assert ApprovalFits(log, lastSecret, v, approvals[v]);
      ApprovalStays(log, e, lastSecret, lastSecret + 1, v, after[v]);
    }
  }

  lemma UnspendingKeepsApprovals(approvals: map<string, Approval>, log: seq<Event>, lastSecret: nat, e: Event)
    requires ApprovalsFit(approvals, log, lastSecret) && e.Created? && e.request == 0
    ensures ApprovalsFit(approvals, log + [e], lastSecret + 1)
  {
    forall v | v in approvals ensures ApprovalFits(log + [e], lastSecret + 1, v, approvals[v]) {
      ApprovalStays(log, e, lastSecret, lastSecret + 1, v, approvals[v]);
    }
  }

  lemma GrantKeepsInv(
    cfg: Config, s: State, driver: string, vehicle: string, audits: Audits, now: int, steady: int)
    requires Inv(cfg, s)
    requires driver in s.drivers && vehicle in s.vehicles
    requires vehicle in cfg.approvalVehicles ==> ApprovalHolds(s, driver, vehicle, steady)
    ensures Inv(cfg, AfterGrant(cfg, s, driver, vehicle, audits, now, steady).0)
  {
    var granted := AfterGrant(cfg, s, driver, vehicle, audits.(created := true, granted := true), now, steady).0;
    var e := granted.log[|s.log|];
    assert granted.log == s.log + [e];
    if vehicle in cfg.approvalVehicles {
      var a := s.approvals[vehicle];
      assert ApprovalFits(s.log, s.lastSecret, vehicle, a);
      CreationKeepsLog(cfg, s.log, s.lastSecret, s.lastSession, e, a.deadline);
      SpendingKeepsApprovals(s.approvals, s.log, s.lastSecret, vehicle, e);
    } else {
      CreationKeepsLog(cfg, s.log, s.lastSecret, s.lastSession, e, 0);
      UnspendingKeepsApprovals(s.approvals, s.log, s.lastSecret, e);
    }
    GrantIsRecorded(s.sessions, s.log, e, granted.sessions);
    FailedGrantIsUntouched(cfg, s, driver, vehicle, audits, now, steady);
    UntouchedKeepsInv(cfg, granted, AfterGrant(cfg, s, driver, vehicle, audits, now, steady).0);
  }

  /** Failing to audit a new session closes it but spends its approval. */
  lemma FailedGrantIsUntouched(
    cfg: Config, s: State, driver: string, vehicle: string, audits: Audits, now: int, steady: int)
    requires driver in s.drivers && vehicle in s.vehicles
    requires vehicle in cfg.approvalVehicles ==> vehicle in s.approvals
    ensures Untouched(
      AfterGrant(cfg, s, driver, vehicle, audits.(created := true, granted := true), now, steady).0,
      AfterGrant(cfg, s, driver, vehicle, audits, now, steady).0)
  {
  }

  lemma GrantIsRecorded(sessions: map<nat, Session>, log: seq<Event>, e: Event, after: map<nat, Session>)
    requires Recorded(sessions, log) && e.Created? && e.session in after
    requires after == sessions[e.session := after[e.session]]
    requires after[e.session].driver == e.driver && after[e.session].vehicle == e.vehicle
    ensures Recorded(after, log + [e])
  {
    RecordsStay(sessions, log, e);
    assert (log + [e])[|log|] == e;
    assert HasCreation(log + [e], e.session, after[e.session]);
    forall id | id in after && id != e.session ensures HasCreation(log + [e], id, after[id]) {
      assert HasCreation(log + [e], id, sessions[id]);
    }
  }

  lemma ChecksKeepInv(
    cfg: Config, s: State, driver: string, vehicle: string, request: nat, audits: Audits,
    clock: Clock, later: int)
    requires Inv(cfg, s)
    requires driver in s.drivers && vehicle in s.vehicles
    ensures Inv(cfg, AfterChecks(cfg, s, driver, vehicle, request, audits, clock, later).0)
  {
    CheckKeepsInv(cfg, s, driver, vehicle, request, audits.requested, clock.steady);
    var (s1, first) := RequireApproval(cfg, s, driver, vehicle, request, audits.requested, clock.steady);
    if first.Done? && audits.preflight {
      if vehicle !in cfg.approvalVehicles {
        GrantKeepsInv(cfg, s1, driver, vehicle, audits, clock.wall, later);
      } else if audits.consumption {
        CheckKeepsInv(cfg, s1, driver, vehicle, request, audits.requestedAgain, later);
        var (s2, second) := RequireApproval(cfg, s1, driver, vehicle, request, audits.requestedAgain, later);
        if second.Done? {
          GrantKeepsInv(cfg, s2, driver, vehicle, audits, clock.wall, later);
        }
      }
    }
  }

  lemma CancellationKeepsInv(
    cfg: Config, s: State, driver: string, vehicle: string, token: nat, request: nat, now: int)
    requires Inv(cfg, s)
    ensures Inv(cfg, AfterCancellation(cfg, s, driver, vehicle, token, request, now).0)
  {
    var after := AfterCancellation(cfg, s, driver, vehicle, token, request, now).0;
    CancellationOnlyEnds(cfg, s, driver, vehicle, token, request, now);
    UntouchedKeepsInv(cfg, s, after.(approvals := s.approvals));
    forall v | v in after.approvals ensures ApprovalFits(after.log, after.lastSecret, v, after.approvals[v]) {
      assert ApprovalFits(s.log, s.lastSecret, v, s.approvals[v]);
    }
  }

  lemma CancellationOnlyEnds(
    cfg: Config, s: State, driver: string, vehicle: string, token: nat, request: nat, now: int)
    ensures var after := AfterCancellation(cfg, s, driver, vehicle, token, request, now).0;
      && Untouched(s, after.(approvals := s.approvals))
      && (after.approvals == s.approvals
          || (vehicle in s.approvals
              && after.approvals == s.approvals[vehicle := s.approvals[vehicle].(state := Cancelled)]))
  {
    if DriverFault(s, driver, token, now).None? {
      var s1 := SeenDriver(s, driver, now);
      if vehicle in s1.approvals {
        CloseIsUntouched(s1, {s1.approvals[vehicle].session});
      }
    }
  }

  // ---------------------------------------------------------------------
  // Every run
  // ---------------------------------------------------------------------

  lemma DeparturesAreUntouched(cfg: Config, s: State, who: string, token: nat, now: int)
    ensures Untouched(s, AfterDriverRevocation(cfg, s, who).0)
    ensures Untouched(s, AfterLogout(s, who, token, now).0)
    ensures Untouched(s, AfterVehicleRevocation(cfg, s, who).0)
    ensures Untouched(s, DropVehicles(s, {who}))
  {
    CloseIsUntouched(s, OpenForDrivers(s, {who}));
    CloseIsUntouched(s.(vehicles := s.vehicles - {who}), OpenForVehicles(s, {who}));
  }

  lemma OnlineIsUntouched(
    cfg: Config, s: State, vehicle: string, deviceToken: string, connection: string, now: int)
    ensures Untouched(s, AfterVehicleOnline(cfg, s, vehicle, deviceToken, connection, now).0)
  {
    CloseIsUntouched(s, OpenForVehicles(s, {vehicle}));
  }

  lemma PresenceIsUntouched(cfg: Config, s: State, request: Request, clock: Clock)
    requires request.AboutPresence()
    ensures Untouched(s, Served(cfg, s, request, clock).0)
  {
    match request
    case RevokeDriver(driver) => DeparturesAreUntouched(cfg, s, driver, 0, clock.wall);
    case RevokeVehicle(vehicle) => DeparturesAreUntouched(cfg, s, vehicle, 0, clock.wall);
    case Logout(driver, token) => DeparturesAreUntouched(cfg, s, driver, token, clock.wall);
    case GoOnline(vehicle, deviceToken, connection) =>
      OnlineIsUntouched(cfg, s, vehicle, deviceToken, connection, clock.wall);
    case GoOffline(vehicle, deviceToken, generation) => DeparturesAreUntouched(cfg, s, vehicle, 0, clock.wall);
    case _ =>
  }

  lemma AuthoriseIsUntouched(cfg: Config, s: State, id: nat, actor: string, credential: Credential, now: int)
    ensures var after := Authorise(cfg, s, id, actor, credential, now).0;
      after == s.(drivers := after.drivers, vehicles := after.vehicles)
  {
  }

  ghost predicate SameButMail(s: State, after: State) {
    after == s.(drivers := after.drivers, vehicles := after.vehicles, mail := after.mail)
  }

  lemma MessageIsUntouched(
    cfg: Config, s: State, m: Submission, controlToken: nat, credential: Credential, now: int, monotonic: int)
    ensures SameButMail(s, AfterMessage(cfg, s, m, controlToken, credential, now, monotonic).0)
  {
    AuthoriseIsUntouched(cfg, s, m.session, m.sender, credential, now);
  }

  lemma DeliveryIsUntouched(
    cfg: Config, s: State, id: nat, actor: string, credential: Credential, cursor: nat, controlOnly: bool,
    now: int, monotonic: int)
    ensures SameButMail(s, AfterReading(cfg, s, id, actor, credential, controlOnly, now, monotonic).0)
    ensures SameButMail(s, AfterAcknowledgement(cfg, s, id, actor, credential, cursor, controlOnly, now).0)
  {
    AuthoriseIsUntouched(cfg, s, id, actor, credential, now);
  }

  lemma EndIsUntouched(cfg: Config, s: State, id: nat, actor: string, credential: Credential, now: int)
    ensures Untouched(s, AfterSessionEnd(cfg, s, id, actor, credential, now).0)
  {
    AuthoriseIsUntouched(cfg, s, id, actor, credential, now);
    CloseIsUntouched(Authorise(cfg, s, id, actor, credential, now).0, {id});
  }

  lemma RenewalIsUntouched(cfg: Config, s: State, id: nat, actor: string, credential: Credential, now: int)
    ensures Untouched(s, AfterRenewal(cfg, s, id, actor, credential, now).0)
  {
    AuthoriseIsUntouched(cfg, s, id, actor, credential, now);
  }

  lemma OthersAreUntouched(cfg: Config, s: State, request: Request, clock: Clock)
    requires !request.AboutApproval()
    ensures Untouched(s, Served(cfg, s, request, clock).0)
  {
    match request
    case EndSession(id, actor, credential) => EndIsUntouched(cfg, s, id, actor, credential, clock.wall);
    case RenewControl(id, actor, credential) => RenewalIsUntouched(cfg, s, id, actor, credential, clock.wall);
    case Send(m, controlToken, credential, monotonic) =>
      MessageIsUntouched(cfg, s, m, controlToken, credential, clock.wall, monotonic);
    case Read(id, actor, credential, controlOnly, monotonic) =>
      DeliveryIsUntouched(cfg, s, id, actor, credential, 0, controlOnly, clock.wall, monotonic);
    case Acknowledge(id, actor, credential, cursor, controlOnly) =>
      DeliveryIsUntouched(cfg, s, id, actor, credential, cursor, controlOnly, clock.wall, 0);
    case _ => PresenceIsUntouched(cfg, s, request, clock);
  }

  lemma ServedKeepsInv(cfg: Config, s: State, request: Request, clock: Clock)
    requires Inv(cfg, s)
    ensures Inv(cfg, Served(cfg, s, request, clock).0)
  {
    match request
    case Decide(vehicle, id, approve, approver, audited, later) =>
      DecisionKeepsInv(cfg, s, vehicle, id, approve, approver, audited, later);
    case CreateSession(driver, vehicle, token, id, audits, later) =>
      CreationRequestKeepsInv(cfg, s, driver, vehicle, token, id, audits, clock, later);
    case CancelApproval(driver, vehicle, token, id) =>
      CancellationKeepsInv(cfg, s, driver, vehicle, token, id, clock.wall);
    case _ =>
      OthersAreUntouched(cfg, s, request, clock);
      UntouchedKeepsInv(cfg, s, Served(cfg, s, request, clock).0);
  }

  lemma StepKeepsInv(cfg: Config, s: State, request: Request, clock: Clock)
    requires Inv(cfg, s)
    ensures Inv(cfg, Step(cfg, s, request, clock))
  {
    CleanupConnectionsUntouched(cfg, s, clock.wall);
    UntouchedKeepsInv(cfg, s, CleanupConnections(cfg, s, clock.wall));
    CleanupApprovalsKeepsInv(cfg, CleanupConnections(cfg, s, clock.wall), clock.steady);
    ServedKeepsInv(cfg, Cleanup(cfg, s, clock), request, clock);
  }

  lemma CreationRequestKeepsInv(
    cfg: Config, s: State, driver: string, vehicle: string, token: nat, request: nat, audits: Audits,
    clock: Clock, later: int)
    requires Inv(cfg, s)
    ensures Inv(cfg, AfterSessionRequest(cfg, s, driver, vehicle, token, request, audits, clock, later).0)
  {
    if DriverFault(s, driver, token, clock.wall).None? {
      var s1 := SeenDriver(s, driver, clock.wall);
      UntouchedKeepsInv(cfg, s, s1);
      if vehicle in s1.vehicles {
        ChecksKeepInv(cfg, s1, driver, vehicle, request, audits, clock, later);
      }
    }
  }

  lemma {:induction false} RunKeepsInv(cfg: Config, requests: seq<(Request, Clock)>)
    ensures Inv(cfg, Run(cfg, requests))
  {
    if requests != [] {
      var n := |requests| - 1;
      RunKeepsInv(cfg, requests[..n]);
      StepKeepsInv(cfg, Run(cfg, requests[..n]), requests[n].0, requests[n].1);
    }
  }

  /** Every session there ever was, of a vehicle that needs approval, spent an
      approval of its own: one requested by its driver for its vehicle on the
      connections both had when the session was created, approved before the
      deadline and spent before the deadline. */
  lemma EverySessionSpendsOneApproval(cfg: Config, requests: seq<(Request, Clock)>, id: nat)
    requires var s := Run(cfg, requests); id in s.sessions && s.sessions[id].vehicle in cfg.approvalVehicles
    ensures var s := Run(cfg, requests);
      exists i | 0 <= i < |s.log| && s.log[i].Created? ::
        && s.log[i].session == id
        && s.log[i].driver == s.sessions[id].driver && s.log[i].vehicle == s.sessions[id].vehicle
        && Warranted(s.log[..i], s.log[i])
        && (forall j | 0 <= j < |s.log| && j != i && s.log[j].Created? :: s.log[j].request != s.log[i].request)
  {
    RunKeepsInv(cfg, requests);
    var s := Run(cfg, requests);
    assert HasCreation(s.log, id, s.sessions[id]);
    var i :| 0 <= i < |s.log| && s.log[i].Created? && s.log[i].session == id
      && s.log[i].driver == s.sessions[id].driver && s.log[i].vehicle == s.sessions[id].vehicle;
    assert EventFits(cfg, s.log, i);
  }
}
