/** Exactly when a driver's request for a vehicle is granted, and what the grant
    leaves behind. */
module CloudGrants {
  import opened ControlTypes
  import opened Cloud

  /** The driver holds the vehicle's approved request, on the connections both
      have now, before its deadline; `request` is zero when no request is named. */
  predicate Held(cfg: Config, s: State, driver: string, vehicle: string, request: nat, steady: int) {
    if vehicle in cfg.approvalVehicles then
      && vehicle in s.approvals
      && var a := s.approvals[vehicle];
         && a.state == Approved && a.driver == driver && (request != 0 ==> a.id == request)
         && Current(s, vehicle, a) && steady < a.deadline
    else request == 0
  }

  lemma CheckedExactly(
    cfg: Config, s: State, driver: string, vehicle: string, request: nat, audited: bool, steady: int)
    requires driver in s.drivers && vehicle in s.vehicles
    ensures var (after, reply) := RequireApproval(cfg, s, driver, vehicle, request, audited, steady);
      && (reply.Done? <==> Held(cfg, s, driver, vehicle, request, steady))
      && (reply.Done? ==>
            && after == s.(approvals := after.approvals)
            && (vehicle in s.approvals <==> vehicle in after.approvals)
            && (vehicle in cfg.approvalVehicles ==> after.approvals[vehicle] == s.approvals[vehicle]))
  {
  }

  /** Every record that a grant needs could be written. */
  predicate Recorded(cfg: Config, vehicle: string, audits: Audits) {
    && audits.preflight && audits.created && audits.granted
    && (vehicle in cfg.approvalVehicles ==> audits.consumption)
  }

  lemma ChecksPassExactly(
    cfg: Config, s: State, driver: string, vehicle: string, request: nat, audits: Audits, clock: Clock, later: int)
    requires driver in s.drivers && vehicle in s.vehicles
    ensures AfterChecks(cfg, s, driver, vehicle, request, audits, clock, later).1.Done? <==>
      && Recorded(cfg, vehicle, audits)
      && Held(cfg, s, driver, vehicle, request, clock.steady) && Held(cfg, s, driver, vehicle, request, later)
  {
    CheckedExactly(cfg, s, driver, vehicle, request, audits.requested, clock.steady);
    var (s1, first) := RequireApproval(cfg, s, driver, vehicle, request, audits.requested, clock.steady);
    if first.Done? {
      CheckedExactly(cfg, s1, driver, vehicle, request, audits.requestedAgain, later);
    }
  }

  /** The driver may have the vehicle and nobody has it. */
  predicate Available(cfg: Config, s: State, driver: string, vehicle: string, token: nat, now: int) {
    && DriverFault(s, driver, token, now).None?
    && cfg.Permitted(driver, vehicle)
    && vehicle in s.vehicles && OpenForVehicles(s, {vehicle}) == {}
  }

  /** Main result: a request is granted if and only if the driver's credential is
      current, the driver is permitted, the vehicle is online and free, an approval
      that it may need is held both before and after the slow records are written,
      and every record could be written. */
  lemma GrantedExactly(
    cfg: Config, s: State, driver: string, vehicle: string, token: nat, request: nat, audits: Audits,
    clock: Clock, later: int)
    ensures AfterSessionRequest(cfg, s, driver, vehicle, token, request, audits, clock, later).1.Done? <==>
      && Available(cfg, s, driver, vehicle, token, clock.wall)
      && Recorded(cfg, vehicle, audits)
      && Held(cfg, s, driver, vehicle, request, clock.steady) && Held(cfg, s, driver, vehicle, request, later)
  {
    if DriverFault(s, driver, token, clock.wall).None? {
      var s1 := SeenDriver(s, driver, clock.wall);
      assert OpenForVehicles(s1, {vehicle}) == OpenForVehicles(s, {vehicle});
      if vehicle in s1.vehicles {
        ChecksPassExactly(cfg, s1, driver, vehicle, request, audits, clock, later);
      }
    }
  }

  /** A granted request leaves the vehicle to its driver, with a token never used
      before, and spends the approval. */
  lemma GrantHandsOver(
    cfg: Config, s: State, driver: string, vehicle: string, token: nat, request: nat, audits: Audits,
    clock: Clock, later: int)
    requires s.lastSession + 1 !in s.sessions
    requires AfterSessionRequest(cfg, s, driver, vehicle, token, request, audits, clock, later).1.Done?
    ensures var u := AfterSessionRequest(cfg, s, driver, vehicle, token, request, audits, clock, later).0;
      && u.sessions == s.sessions[s.lastSession + 1 := Session(
           driver, vehicle, Active, s.lastSecret + 1, clock.wall + cfg.controlTokenTtlMs)]
      && OpenForVehicles(u, {vehicle}) == {s.lastSession + 1}
      && (vehicle in cfg.approvalVehicles ==> !Held(cfg, u, driver, vehicle, request, later))
  {
    var s1 := SeenDriver(s, driver, clock.wall);
    assert OpenForVehicles(s1, {vehicle}) == {};
    CheckedExactly(cfg, s1, driver, vehicle, request, audits.requested, clock.steady);
    var s2 := RequireApproval(cfg, s1, driver, vehicle, request, audits.requested, clock.steady).0;
    CheckedExactly(cfg, s2, driver, vehicle, request, audits.requestedAgain, later);
    var u := AfterSessionRequest(cfg, s, driver, vehicle, token, request, audits, clock, later).0;
    forall id ensures id in OpenForVehicles(u, {vehicle}) <==> id == s.lastSession + 1 {
      assert id in OpenForVehicles(s1, {vehicle}) <==> Open(s1, id) && s1.sessions[id].vehicle == vehicle;
    }
  }
}
