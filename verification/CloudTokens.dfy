/** What becomes of a session's control token: a closed session has none, unless
    it was closed because its creation could not be recorded. */
module CloudTokens {
  import opened ControlTypes
  import opened Mailboxes
  import opened Cloud
  import opened CloudRuns

  // ---------------------------------------------------------------------
  // How a session may change
  // ---------------------------------------------------------------------

  /** The same session, or an open one that was ended or prolonged. */
  predicate Succeeds(before: Session, after: Session) {
    || after == before
    || (before.state != Closed && (after == before.Ended() || after == before.(expiresAt := after.expiresAt)))
  }

  ghost predicate Follows(before: map<nat, Session>, after: map<nat, Session>) {
    forall id | id in before :: id in after && Succeeds(before[id], after[id])
  }

  lemma FollowsTrans(a: map<nat, Session>, b: map<nat, Session>, c: map<nat, Session>)
    requires Follows(a, b) && Follows(b, c)
    ensures Follows(a, c)
  {
    forall id | id in a ensures id in c && Succeeds(a[id], c[id]) {
      assert Succeeds(a[id], b[id]) && Succeeds(b[id], c[id]);
    }
  }

  /** Whether the record of a session's creation could be written shows in its
      token: with the record a session has one exactly while it is open, without
      it the session is closed and has one for ever. */
  predicate Marks(session: Session, created: bool) {
    if created then session.token != 0 <==> session.state != Closed
    else session.state == Closed && session.token != 0
  }

  lemma MarksStay(before: Session, after: Session, created: bool)
    requires Marks(before, created) && Succeeds(before, after)
    ensures Marks(after, created)
  {
  }

  lemma CleanupFollows(cfg: Config, s: State, clock: Clock)
    ensures Follows(s.sessions, Cleanup(cfg, s, clock).sessions)
    ensures Cleanup(cfg, s, clock).sessions.Keys == s.sessions.Keys
  {
    var now := clock.wall;
    var s1 := DropTokens(s, ExpiredTokens(s, now));
    var s2 := CloseIds(s1, ExpiredSessions(s1, now));
    var s3 := DropVehicles(s2, SilentVehicles(cfg, s2, now));
    var s4 := DropDrivers(s3, SilentDrivers(cfg, s3, now));
    FollowsTrans(s.sessions, s1.sessions, s2.sessions);
    FollowsTrans(s.sessions, s2.sessions, s3.sessions);
    FollowsTrans(s.sessions, s3.sessions, s4.sessions);
  }

  /** The sessions that a creation adds to `before`: none, or one with its mark. */
  ghost predicate Adds(before: map<nat, Session>, after: map<nat, Session>, request: Request) {
    forall id | id in after && id !in before :: request.CreateSession? && Marks(after[id], request.audits.created)
  }

  lemma ChecksMark(
    cfg: Config, s: State, driver: string, vehicle: string, request: nat, audits: Audits, clock: Clock, later: int)
    requires driver in s.drivers && vehicle in s.vehicles && s.lastSession + 1 !in s.sessions
    ensures var after := AfterChecks(cfg, s, driver, vehicle, request, audits, clock, later).0.sessions;
      && Follows(s.sessions, after)
      && (forall id | id in after && id !in s.sessions :: Marks(after[id], audits.created))
  {
    CheckKeepsAuthority(cfg, s, driver, vehicle, request, audits.requested, clock.steady);
    CheckKeepsVacancy(cfg, s, driver, vehicle, request, audits.requested, clock.steady);
    var (s1, first) := RequireApproval(cfg, s, driver, vehicle, request, audits.requested, clock.steady);
    if first.Done? && audits.preflight {
      if vehicle !in cfg.approvalVehicles {
        GrantMarks(cfg, s1, driver, vehicle, audits, clock.wall, later);
      } else if audits.consumption {
        CheckKeepsAuthority(cfg, s1, driver, vehicle, request, audits.requestedAgain, later);
        CheckKeepsVacancy(cfg, s1, driver, vehicle, request, audits.requestedAgain, later);
        var (s2, second) := RequireApproval(cfg, s1, driver, vehicle, request, audits.requestedAgain, later);
        if second.Done? {
          GrantMarks(cfg, s2, driver, vehicle, audits, clock.wall, later);
        }
      }
    }
  }

  lemma GrantMarks(
    cfg: Config, s: State, driver: string, vehicle: string, audits: Audits, now: int, steady: int)
    requires driver in s.drivers && vehicle in s.vehicles && s.lastSession + 1 !in s.sessions
    requires vehicle in cfg.approvalVehicles ==> vehicle in s.approvals
    ensures var after := AfterGrant(cfg, s, driver, vehicle, audits, now, steady).0.sessions;
      && Follows(s.sessions, after)
      && (forall id | id in after && id !in s.sessions :: Marks(after[id], audits.created))
  {
    var session := Session(driver, vehicle, Active, s.lastSecret + 1, now + cfg.controlTokenTtlMs);
    GrantOutcome(
      cfg, s, driver, vehicle, audits, now, steady, session,
      AfterGrant(cfg, s, driver, vehicle, audits, now, steady).0);
  }

  /** The sessions are the same ones. */
  ghost predicate Continues(before: map<nat, Session>, after: map<nat, Session>) {
    Follows(before, after) && after.Keys == before.Keys
  }

  lemma DepartureContinues(cfg: Config, s: State, who: string, token: nat, now: int)
    ensures Continues(s.sessions, AfterDriverRevocation(cfg, s, who).0.sessions)
    ensures Continues(s.sessions, AfterVehicleRevocation(cfg, s, who).0.sessions)
    ensures Continues(s.sessions, AfterLogout(s, who, token, now).0.sessions)
  {
    LeavingContinues(s, {who}, {who});
  }

  lemma VehicleContinues(
    cfg: Config, s: State, vehicle: string, deviceToken: string, connection: string, generation: nat, now: int)
    ensures Continues(s.sessions, AfterVehicleOnline(cfg, s, vehicle, deviceToken, connection, now).0.sessions)
    ensures Continues(s.sessions, AfterVehicleOffline(cfg, s, vehicle, deviceToken, generation).0.sessions)
  {
    LeavingContinues(s, {}, {vehicle});
  }

  lemma PresenceContinues(cfg: Config, s: State, request: Request, clock: Clock)
    requires request.AboutPresence()
    ensures Continues(s.sessions, Served(cfg, s, request, clock).0.sessions)
  {
    match request
    case RevokeDriver(driver) => DepartureContinues(cfg, s, driver, 0, 0);
    case RevokeVehicle(vehicle) => DepartureContinues(cfg, s, vehicle, 0, 0);
    case Logout(driver, token) => DepartureContinues(cfg, s, driver, token, clock.wall);
    case GoOnline(vehicle, deviceToken, connection) =>
      VehicleContinues(cfg, s, vehicle, deviceToken, connection, 0, clock.wall);
    case GoOffline(vehicle, deviceToken, generation) =>
      VehicleContinues(cfg, s, vehicle, deviceToken, "", generation, 0);
    case _ =>
  }

  lemma LeavingContinues(s: State, drivers: set<string>, vehicles: set<string>)
    ensures Continues(s.sessions, EndSessions(s.sessions, OpenForDrivers(s, drivers)))
    ensures Continues(s.sessions, EndSessions(s.sessions, OpenForVehicles(s, vehicles)))
  {
  }

  lemma ApprovalFollows(cfg: Config, s: State, request: Request, clock: Clock)
    requires request.AboutApproval() && s.lastSession + 1 !in s.sessions
    ensures var after := Served(cfg, s, request, clock).0.sessions;
      Follows(s.sessions, after) && Adds(s.sessions, after, request)
  {
    match request
    case CreateSession(driver, vehicle, token, id, audits, later) =>
      if DriverFault(s, driver, token, clock.wall).None? && vehicle in s.vehicles {
        ChecksMark(cfg, SeenDriver(s, driver, clock.wall), driver, vehicle, id, audits, clock, later);
      }
    case Decide(vehicle, id, approve, approver, audited, later) =>
      DecisionKeepsAuthority(cfg, s, vehicle, id, approve, approver, audited, later);
    case CancelApproval(driver, vehicle, token, id) =>
  }

  lemma SessionContinues(cfg: Config, s: State, request: Request, clock: Clock)
    requires !request.AboutPresence() && !request.AboutApproval()
    ensures Continues(s.sessions, Served(cfg, s, request, clock).0.sessions)
  {
    match request
    case EndSession(id, actor, credential) =>
      AuthoriseKeepsStanding(cfg, s, id, actor, credential, clock.wall);
    case RenewControl(id, actor, credential) =>
      AuthoriseKeepsStanding(cfg, s, id, actor, credential, clock.wall);
    case _ => MailKeepsSessionTable(cfg, s, request, clock);
  }

  lemma ServedFollows(cfg: Config, s: State, request: Request, clock: Clock)
    requires s.lastSession + 1 !in s.sessions
    ensures var after := Served(cfg, s, request, clock).0.sessions;
      Follows(s.sessions, after) && Adds(s.sessions, after, request)
  {
    if request.AboutPresence() {
      PresenceContinues(cfg, s, request, clock);
    } else if request.AboutApproval() {
      ApprovalFollows(cfg, s, request, clock);
    } else {
      SessionContinues(cfg, s, request, clock);
    }
  }

  // ---------------------------------------------------------------------
  // Every run
  // ---------------------------------------------------------------------

  /** The `i`th request brought the session `id` into being. */
  predicate CreatedAt(cfg: Config, requests: seq<(Request, Clock)>, i: nat, id: nat) {
    && i < |requests|
    && id !in Run(cfg, requests[..i]).sessions && id in Run(cfg, requests[..i + 1]).sessions
  }

  /** The `i`th request created `session`, which shows whether that was recorded. */
  ghost predicate Explains(cfg: Config, requests: seq<(Request, Clock)>, i: nat, id: nat, session: Session) {
    && CreatedAt(cfg, requests, i, id)
    && requests[i].0.CreateSession? && Marks(session, requests[i].0.audits.created)
  }

  lemma StepFollows(cfg: Config, requests: seq<(Request, Clock)>)
    requires requests != []
    ensures var before, after := Run(cfg, requests[..|requests| - 1]).sessions, Run(cfg, requests).sessions;
      Follows(before, after) && Adds(before, after, requests[|requests| - 1].0)
  {
    var n := |requests| - 1;
    var s, request, clock := Run(cfg, requests[..n]), requests[n].0, requests[n].1;
    RunKeepsSessions(cfg, requests[..n]);
    CleanupKeepsSessions(cfg, s, clock);
    var prepared := Cleanup(cfg, s, clock);
    assert prepared.lastSession + 1 !in prepared.sessions;
    CleanupFollows(cfg, s, clock);
    ServedFollows(cfg, prepared, request, clock);
    FollowsTrans(s.sessions, prepared.sessions, Run(cfg, requests).sessions);
  }

  lemma ExplainsLater(cfg: Config, requests: seq<(Request, Clock)>, n: nat, i: nat, id: nat, a: Session, b: Session)
    requires n <= |requests| && Explains(cfg, requests[..n], i, id, a) && Succeeds(a, b)
    ensures Explains(cfg, requests, i, id, b)
  {
    assert requests[..n][..i] == requests[..i] && requests[..n][..i + 1] == requests[..i + 1];
    MarksStay(a, b, requests[i].0.audits.created);
  }

  lemma {:induction false} EverySessionIsExplained(cfg: Config, requests: seq<(Request, Clock)>, id: nat)
    requires id in Run(cfg, requests).sessions
    ensures exists i: nat :: Explains(cfg, requests, i, id, Run(cfg, requests).sessions[id])
  {
    assert requests != [];
    var n := |requests| - 1;
    var before, after := Run(cfg, requests[..n]).sessions, Run(cfg, requests).sessions;
    StepFollows(cfg, requests);
    if id in before {
      EverySessionIsExplained(cfg, requests[..n], id);
      var i: nat :| Explains(cfg, requests[..n], i, id, before[id]);
      ExplainsLater(cfg, requests, n, i, id, before[id], after[id]);
    } else {
      assert requests[..n + 1] == requests;
      assert Explains(cfg, requests, n, id, after[id]);
    }
  }

  /** Main result: in every run a closed session still has a control token if and
      only if the creation of that very session could not be recorded. */
  lemma TokenOutlivesExactly(cfg: Config, requests: seq<(Request, Clock)>, id: nat)
    requires id in Run(cfg, requests).sessions && !Open(Run(cfg, requests), id)
    ensures exists i: nat ::
      && CreatedAt(cfg, requests, i, id) && requests[i].0.CreateSession?
      && (Run(cfg, requests).sessions[id].token != 0 <==> !requests[i].0.audits.created)
  {
    EverySessionIsExplained(cfg, requests, id);
  }

  /** A session is created only once, so the request is unique. */
  lemma CreatedOnce(cfg: Config, requests: seq<(Request, Clock)>, i: nat, j: nat, id: nat)
    requires CreatedAt(cfg, requests, i, id) && CreatedAt(cfg, requests, j, id)
    ensures i == j
  {
    if i < j {
      StaysKnown(cfg, requests, i + 1, j, id);
    }
    if j < i {
      StaysKnown(cfg, requests, j + 1, i, id);
    }
  }

  lemma {:induction false} StaysKnown(cfg: Config, requests: seq<(Request, Clock)>, i: nat, j: nat, id: nat)
    requires i <= j <= |requests| && id in Run(cfg, requests[..i]).sessions
    ensures id in Run(cfg, requests[..j]).sessions
  {
    if i < j {
      StaysKnown(cfg, requests, i, j - 1, id);
      assert requests[..j][..j - 1] == requests[..j - 1];
      StillKnown(cfg, requests[..j], id);
    }
  }

  lemma StillKnown(cfg: Config, requests: seq<(Request, Clock)>, id: nat)
    requires requests != [] && id in Run(cfg, requests[..|requests| - 1]).sessions
    ensures id in Run(cfg, requests).sessions
  {
    StepFollows(cfg, requests);
  }

  // ---------------------------------------------------------------------
  // A run in which a token outlives its session
  // ---------------------------------------------------------------------

  /** One driver, one vehicle, no approvals; `name` serves for every name. */
  function OneOfEach(name: string): Config {
    Config(
      map[name := name], map[name := name], map[name := {name}], {}, 1000, 1000, 1000, 1000, 1000, Ttl(1000, 1000))
  }

  const FAILING_RECORD: Audits := Audits(true, true, true, true, false, true)
  const SAME_TIME: Clock := Clock(0, 0)

  /** The driver logs in, the vehicle goes online, and recording the session that
      the driver asks for fails. */
  function Unrecorded(name: string): seq<(Request, Clock)> {
    [(Login(name, name), SAME_TIME), (GoOnline(name, name, name), SAME_TIME),
     (CreateSession(name, name, 1, 0, FAILING_RECORD, 0), SAME_TIME)]
  }

  lemma RunNext(cfg: Config, requests: seq<(Request, Clock)>, n: nat)
    requires n < |requests|
    ensures Run(cfg, requests[..n + 1])
      == Step(cfg, Run(cfg, requests[..n]), requests[n].0, requests[n].1)
  {
    assert requests[..n + 1][..n] == requests[..n];
  }

  /** Nothing has expired, and there is nothing to close. */
  lemma NothingDue(cfg: Config, s: State, clock: Clock)
    requires s.sessions == map[] && s.mail == NO_MAIL && s.approvals == map[]
    requires ExpiredTokens(s, clock.wall) == {} && SilentVehicles(cfg, s, clock.wall) == {}
    requires SilentDrivers(cfg, s, clock.wall) == {}
    ensures Cleanup(cfg, s, clock) == s
  {
    assert CloseIds(s, {}) == s;
    assert DropTokens(s, {}) == s;
    assert DropVehicles(s, {}) == s;
    assert DropDrivers(s, {}) == s;
    assert ExpiredSessions(s, clock.wall) == {};
    assert CleanupApprovals(s, clock.steady).approvals == map[];
  }

  function DriverOnline(name: string): State {
    EMPTY.(
      tokens := map[1 := DriverToken(name, 1000, 1)], drivers := map[name := Presence("", 1, 0)],
      generation := 1, lastSecret := 1)
  }

  function BothOnline(name: string): State {
    DriverOnline(name).(vehicles := map[name := Presence(name, 2, 0)], generation := 2)
  }

  lemma LoginStep(name: string)
    requires name != ""
    ensures Step(OneOfEach(name), EMPTY, Login(name, name), SAME_TIME) == DriverOnline(name)
  {
    NothingDue(OneOfEach(name), EMPTY, SAME_TIME);
  }

  lemma OnlineStep(name: string)
    requires name != ""
    ensures Step(OneOfEach(name), DriverOnline(name), GoOnline(name, name, name), SAME_TIME) == BothOnline(name)
  {
    NothingDue(OneOfEach(name), DriverOnline(name), SAME_TIME);
  }

  lemma CreationStep(name: string)
    requires name != ""
    ensures var s :=
        Step(OneOfEach(name), BothOnline(name), CreateSession(name, name, 1, 0, FAILING_RECORD, 0), SAME_TIME);
      s.sessions == map[1 := Session(name, name, Closed, 2, 1000)]
  {
    NothingDue(OneOfEach(name), BothOnline(name), SAME_TIME);
    assert OpenForVehicles(BothOnline(name), {name}) == {};
  }

  lemma TokenMayOutliveSession(name: string)
    requires name != ""
    ensures var s := Run(OneOfEach(name), Unrecorded(name));
      1 in s.sessions && !Open(s, 1) && s.sessions[1].token == 2
  {
    var cfg, requests := OneOfEach(name), Unrecorded(name);
    assert requests[..0] == [] && requests[..3] == requests;
    RunNext(cfg, requests, 0);
    RunNext(cfg, requests, 1);
    RunNext(cfg, requests, 2);
    LoginStep(name);
    OnlineStep(name);
    CreationStep(name);
  }
}
