/** The vehicle-side check of identity, order and age of every command. */
module Receiver {
  import opened ControlTypes

  datatype Config = Config(
    vehicle: string, driver: string, session: string, token: string,
    authority: bool, maxGapMs: int, warningSkewMs: int)
  {
    predicate Valid() {
      vehicle != "" && driver != "" && session != "" && maxGapMs > 0 && warningSkewMs >= 0
    }
  }

  datatype Verdict = Verdict(accepted: bool, reason: Cause, warnings: seq<Cause>)

  function Refuse(reason: Cause): Verdict {
    Verdict(false, reason, [])
  }

  /** The last accepted number and the time used for gap detection. */
  datatype Cursor = Cursor(lastNumber: Option<nat>, lastReceive: Option<int>) {
    /** `None` stands for the thrown argument error. */
    function Accept(config: Config, command: Command, now: int): (Cursor, Option<Verdict>) {
      if now < 0 then (this, None)
      else if !command.Valid() then (this, Some(Refuse(InvalidCommand)))
      else if command.meta.version != PROTOCOL_VERSION then (this, Some(Refuse(WrongProtocolVersion)))
      else if command.meta.vehicle != config.vehicle then (this, Some(Refuse(WrongVehicle)))
      else if command.meta.driver != config.driver then (this, Some(Refuse(WrongDriver)))
      else if command.meta.session != config.session then (this, Some(Refuse(WrongSession)))
      else if !config.authority then (this, Some(Refuse(ControlAuthorityMissing)))
      else if command.token != config.token then (this, Some(Refuse(ControlTokenInvalid)))
      else if lastNumber.Some? && command.meta.number <= lastNumber.value then
        (this, Some(Refuse(OldSeq)))
      else if !command.estop && now - command.meta.sentAt > config.maxGapMs then
        (this, Some(Refuse(CommandAgeExceeded)))
      else if !command.estop && now - command.meta.sentAt < -config.maxGapMs then
        (this, Some(Refuse(CommandTimestampInFuture)))
      else if lastReceive.Some? && now < lastReceive.value then
        (this, Some(Refuse(ReceiveTimeReversed)))
      else if lastReceive.Some? && now - lastReceive.value > config.maxGapMs && !command.estop then
        (this.(lastReceive := Some(now)), Some(Refuse(CommandGapExceeded)))
      else
        var skewed :=
          now - command.meta.sentAt > config.warningSkewMs || command.meta.sentAt - now > config.warningSkewMs;
        (Cursor(Some(command.meta.number), Some(now)),
         Some(Verdict(true, AsRequested, if skewed then [DriverTimestampSkew] else [])))
    }
  }

  const NOTHING_RECEIVED: Cursor := Cursor(None, None)

  class ControlReceiver {
    const config: Config
    var lastNumber: Option<nat>
    var lastReceive: Option<int>

    ghost function View(): Cursor
      reads this
    {
      Cursor(lastNumber, lastReceive)
    }

    constructor (config: Config)
      requires config.Valid()
      ensures this.config == config && View() == NOTHING_RECEIVED
    {
      this.config := config;
      lastNumber, lastReceive := None, None;
    }

    method Accept(command: Command, now: int) returns (verdict: Option<Verdict>)
      modifies this
      ensures (View(), verdict) == old(View()).Accept(config, command, now)
    {
      if now < 0 {
        return None;
      }
      if !command.Valid() {
        return Some(Refuse(InvalidCommand));
      }
      if command.meta.version != PROTOCOL_VERSION {
        return Some(Refuse(WrongProtocolVersion));
      }
      if command.meta.vehicle != config.vehicle {
        return Some(Refuse(WrongVehicle));
      }
      if command.meta.driver != config.driver {
        return Some(Refuse(WrongDriver));
      }
      if command.meta.session != config.session {
        return Some(Refuse(WrongSession));
      }
      if !config.authority {
        return Some(Refuse(ControlAuthorityMissing));
      }
      if command.token != config.token {
        return Some(Refuse(ControlTokenInvalid));
      }
      if lastNumber.Some? && command.meta.number <= lastNumber.value {
        return Some(Refuse(OldSeq));
      }
      var delta := now - command.meta.sentAt;
      if !command.estop && delta > config.maxGapMs {
        return Some(Refuse(CommandAgeExceeded));
      }
      if !command.estop && delta < -config.maxGapMs {
        return Some(Refuse(CommandTimestampInFuture));
      }
      if lastReceive.Some? && now < lastReceive.value {
        return Some(Refuse(ReceiveTimeReversed));
      }
      if lastReceive.Some? && now - lastReceive.value > config.maxGapMs && !command.estop {
        lastReceive := Some(now);
        return Some(Refuse(CommandGapExceeded));
      }
      lastNumber := Some(command.meta.number);
      lastReceive := Some(now);
      var warnings: seq<Cause> := [];
      if delta > config.warningSkewMs || -delta > config.warningSkewMs {
        warnings := [DriverTimestampSkew];
      }
      return Some(Verdict(true, AsRequested, warnings));
    }
  }

  // ---------------------------------------------------------------------
  // Whole runs of one receiver
  // ---------------------------------------------------------------------

  datatype Arrival = Arrival(command: Command, at: int)

  function Run(config: Config, arrivals: seq<Arrival>): Cursor {
    if arrivals == [] then NOTHING_RECEIVED
    else
      var last := arrivals[|arrivals| - 1];
      Run(config, arrivals[..|arrivals| - 1]).Accept(config, last.command, last.at).0
  }

  predicate AcceptedAt(config: Config, arrivals: seq<Arrival>, k: nat)
    requires k < |arrivals|
  {
    var verdict := Run(config, arrivals[..k]).Accept(config, arrivals[k].command, arrivals[k].at).1;
    verdict.Some? && verdict.value.accepted
  }

  lemma {:induction false} NumberIsRemembered(config: Config, arrivals: seq<Arrival>, k: nat)
    requires k < |arrivals| && AcceptedAt(config, arrivals, k)
    ensures Run(config, arrivals).lastNumber.Some?
    ensures arrivals[k].command.meta.number <= Run(config, arrivals).lastNumber.value
  {
    var n := |arrivals| - 1;
    if k < n {
      assert arrivals[..n][..k] == arrivals[..k];
      NumberIsRemembered(config, arrivals[..n], k);
    }
  }

  /** In every run, whatever is repeated, reordered or delayed, the numbers of the
      accepted commands strictly increase, so no command is accepted twice. */
  lemma AcceptedNumbersIncrease(config: Config, arrivals: seq<Arrival>, i: nat, j: nat)
    requires i < j < |arrivals|
    requires AcceptedAt(config, arrivals, i) && AcceptedAt(config, arrivals, j)
    ensures arrivals[i].command.meta.number < arrivals[j].command.meta.number
  {
    assert arrivals[..j][..i] == arrivals[..i];
    NumberIsRemembered(config, arrivals[..j], i);
  }

  /** A command dropped for a gap re-arms the clock: the next well-formed, newer
      and timely command is accepted, so a gap never locks control out. */
  lemma GapDropsOneCommandOnly(config: Config, cursor: Cursor, first: Command, t1: int, next: Command, t2: int)
    requires config.Valid() && config.authority
    requires cursor.Accept(config, first, t1).1 == Some(Refuse(CommandGapExceeded))
    requires next.Valid() && next.token == config.token
    requires next.meta.vehicle == config.vehicle && next.meta.driver == config.driver
    requires next.meta.session == config.session
    requires next.meta.number > first.meta.number
    requires t1 <= t2 <= t1 + config.maxGapMs
    requires -config.maxGapMs <= t2 - next.meta.sentAt <= config.maxGapMs
    ensures var (rearmed, _) := cursor.Accept(config, first, t1);
      var verdict := rearmed.Accept(config, next, t2).1;
      verdict.Some? && verdict.value.accepted
  {
  }
}
