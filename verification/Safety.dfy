/** The deceleration profile and the vehicle's safety state machine. */
module Safety {
  import opened ControlTypes

  datatype Stage = Stage(afterMs: int, brake: real)

  // ---------------------------------------------------------------------
  // Deceleration profiles
  // ---------------------------------------------------------------------

  /** What a configured profile must look like once it has been normalised. */
  ghost predicate Normalised(profile: seq<Stage>) {
    && profile != []
    && profile[0].afterMs == 0
    && (forall i, j | 0 <= i < j < |profile| :: profile[i].afterMs < profile[j].afterMs)
    && (forall i, j | 0 <= i <= j < |profile| :: profile[i].brake <= profile[j].brake)
    && (forall i | 0 <= i < |profile| :: 0.0 <= profile[i].brake <= 1.0)
    && profile[|profile| - 1].brake == 1.0
  }

  /** The strongest brake among the first `n` stages. */
  ghost function Peak(profile: seq<Stage>, n: nat): real
    requires n <= |profile|
  {
    if n == 0 then 0.0
    else if Peak(profile, n - 1) < profile[n - 1].brake then profile[n - 1].brake
    else Peak(profile, n - 1)
  }

  ghost predicate StageFits(profile: seq<Stage>, i: nat)
    requires i < |profile|
  {
    && profile[i].afterMs >= 0
    && (i > 0 ==> profile[i - 1].afterMs < profile[i].afterMs)
    && 0.0 <= profile[i].brake <= 1.0
    && Peak(profile, i) <= profile[i].brake + TOLERANCE
  }

  /** The configurations the source accepts: times start at zero and strictly
      increase, brakes may dip below an earlier stage only within the tolerance,
      and the profile ends with full brake within the tolerance. */
  ghost predicate Acceptable(profile: seq<Stage>) {
    && profile != []
    && profile[0].afterMs == 0
    && (forall i: nat | i < |profile| :: StageFits(profile, i))
    && 1.0 - TOLERANCE <= Peak(profile, |profile|)
  }

  lemma {:induction false} TimesIncrease(profile: seq<Stage>, i: nat, j: nat)
    requires forall m: nat | m < |profile| :: StageFits(profile, m)
    requires i < j < |profile|
    ensures profile[i].afterMs < profile[j].afterMs
  {
    assert StageFits(profile, j);
    if i + 1 < j {
      TimesIncrease(profile, i, j - 1);
    }
  }

  /** The loop of the normaliser: checks every stage and lifts each brake to the
      strongest one so far. */
  method LiftStages(profile: array<Stage>) returns (accepted: bool)
    requires profile.Length > 0 && profile[0].afterMs == 0
    modifies profile
    ensures accepted <==> forall m: nat | m < profile.Length :: StageFits(old(profile[..]), m)
    ensures accepted ==> forall m: nat | m < profile.Length ::
      profile[m] == Stage(old(profile[m]).afterMs, Peak(old(profile[..]), m + 1))
  {
    ghost var raw := profile[..];
    var previousBrake := 0.0;
    var previousAfter := -1;
    var i := 0;
    while i < profile.Length
      invariant 0 <= i <= profile.Length
      invariant previousBrake == Peak(raw, i)
      invariant previousAfter == if i == 0 then -1 else raw[i - 1].afterMs
      invariant forall m: nat | m < i :: StageFits(raw, m)
      invariant forall m: nat | m < i :: profile[m] == Stage(raw[m].afterMs, Peak(raw, m + 1))
      invariant profile[i..] == raw[i..]
    {
      assert i > 0 ==> StageFits(raw, i - 1);
      var stage := profile[i];
      assert stage == raw[i];
      ghost var rest := profile[i + 1..];
      if stage.afterMs < 0 || (previousAfter >= 0 && stage.afterMs <= previousAfter) {
        assert !StageFits(raw, i);
        return false;
      }
      if !InRange(stage.brake, 0.0, 1.0) || stage.brake + TOLERANCE < previousBrake {
        assert !StageFits(raw, i);
        return false;
      }
      if stage.brake < previousBrake {
        stage := stage.(brake := previousBrake);
        profile[i] := stage;
      }
      assert profile[i + 1..] == rest == raw[i + 1..];
      previousBrake := stage.brake;
      previousAfter := stage.afterMs;
      i := i + 1;
    }
    return true;
  }

  /** Rewrites the profile in place. It succeeds on exactly the acceptable profiles,
      and then the result is normalised. */
  method NormalizeDecelerationProfile(profile: array<Stage>) returns (accepted: bool)
    modifies profile
    ensures accepted <==> Acceptable(old(profile[..]))
    ensures accepted ==> Normalised(profile[..])
    ensures accepted ==> IsRaised(old(profile[..]), profile[..])
  {
    ghost var raw := profile[..];
    if profile.Length == 0 || profile[0].afterMs != 0 {
      return false;
    }
    var lifted := LiftStages(profile);
    if !lifted {
      return false;
    }
    RaisedBrakesInOrder(raw);
    var last := profile.Length - 1;
    if Abs(profile[last].brake - 1.0) > TOLERANCE {
      return false;
    }
    profile[last] := profile[last].(brake := 1.0);
    RaisedIsNormalised(raw, profile[..]);
    return true;
  }

  /** `final` is `raw` with every stage lifted to the strongest brake up to it, and
      the last one to full brake. */
  ghost predicate IsRaised(raw: seq<Stage>, final: seq<Stage>) {
    && |final| == |raw| > 0
    && (forall i | 0 <= i < |raw| - 1 :: final[i] == Stage(raw[i].afterMs, Peak(raw, i + 1)))
    && final[|raw| - 1] == Stage(raw[|raw| - 1].afterMs, 1.0)
  }

  lemma RaisedBrakesInOrder(raw: seq<Stage>)
    requires forall m: nat | m < |raw| :: StageFits(raw, m)
    ensures forall i, j | 0 <= i <= j <= |raw| :: 0.0 <= Peak(raw, i) <= Peak(raw, j) <= 1.0
  {
    forall i, j | 0 <= i <= j <= |raw| ensures 0.0 <= Peak(raw, i) <= Peak(raw, j) <= 1.0 {
      PeakGrows(raw, 0, i);
      PeakGrows(raw, i, j);
    }
  }

  lemma RaisedIsNormalised(raw: seq<Stage>, final: seq<Stage>)
    requires IsRaised(raw, final) && raw[0].afterMs == 0
    requires forall m: nat | m < |raw| :: StageFits(raw, m)
    ensures Normalised(final)
  {
    RaisedBrakesInOrder(raw);
    assert forall i | 0 <= i < |final| :: final[i].afterMs == raw[i].afterMs;
    forall i, j | 0 <= i < j < |final| ensures final[i].afterMs < final[j].afterMs {
      TimesIncrease(raw, i, j);
    }
  }

  /** Normalising keeps every time and raises a brake by at most the tolerance,
      except the last one, which may gain it twice: once towards an earlier stage
      and once more towards full brake. */
  lemma RaisedWithinTolerance(raw: seq<Stage>, final: seq<Stage>, i: nat)
    requires Acceptable(raw) && IsRaised(raw, final) && i < |raw|
    ensures final[i].afterMs == raw[i].afterMs
    ensures raw[i].brake <= final[i].brake
    ensures final[i].brake <= raw[i].brake + (if i < |raw| - 1 then TOLERANCE else 2.0 * TOLERANCE)
  {
    assert StageFits(raw, i);
  }

  /** No stage is raised by more than the tolerance if and only if the last one
      asked for full brake within the tolerance. */
  lemma RaisedOnceExactly(raw: seq<Stage>, final: seq<Stage>)
    requires Acceptable(raw) && IsRaised(raw, final)
    ensures (forall i | 0 <= i < |raw| :: final[i].brake <= raw[i].brake + TOLERANCE)
      <==> 1.0 - TOLERANCE <= raw[|raw| - 1].brake
  {
    var last := |raw| - 1;
    forall i: nat | i < last ensures final[i].brake <= raw[i].brake + TOLERANCE {
      RaisedWithinTolerance(raw, final, i);
    }
    assert final[last].brake == 1.0;
  }

  /** A last stage that is below an earlier one, which is itself below full brake. */
  function DippingTwice(): seq<Stage> {
    [Stage(0, 1.0 - TOLERANCE), Stage(1, 1.0 - 2.0 * TOLERANCE)]
  }

  lemma TwiceTheToleranceIsReached(final: seq<Stage>)
    requires IsRaised(DippingTwice(), final)
    ensures Acceptable(DippingTwice())
    ensures final[1].brake == DippingTwice()[1].brake + 2.0 * TOLERANCE
  {
    var raw := DippingTwice();
    assert Peak(raw, 1) == 1.0 - TOLERANCE && Peak(raw, 2) == 1.0 - TOLERANCE;
    assert StageFits(raw, 0) && StageFits(raw, 1);
  }

  lemma {:induction false} PeakGrows(profile: seq<Stage>, m: nat, n: nat)
    requires m <= n <= |profile|
    requires forall i: nat | i < |profile| :: StageFits(profile, i)
    ensures Peak(profile, m) <= Peak(profile, n) <= 1.0
  {
    assert n > 0 ==> StageFits(profile, n - 1);
    if m < n {
      PeakGrows(profile, m, n - 1);
    } else if m > 0 {
      PeakGrows(profile, m - 1, n - 1);
    }
  }

  /** The brake of the last stage, in profile order, that has been reached. */
  function BrakeAt(profile: seq<Stage>, elapsed: int): real {
    if profile == [] then 0.0
    else if elapsed >= profile[|profile| - 1].afterMs then profile[|profile| - 1].brake
    else BrakeAt(profile[..|profile| - 1], elapsed)
  }

  /** Without any assumption on the profile, the chosen brake is zero or one of
      the reached stages. */
  lemma {:induction false} BrakeIsAStage(profile: seq<Stage>, elapsed: int)
    ensures BrakeAt(profile, elapsed) == 0.0
      || exists i :: 0 <= i < |profile| && profile[i].afterMs <= elapsed
           && profile[i].brake == BrakeAt(profile, elapsed)
  {
    if profile != [] && elapsed < profile[|profile| - 1].afterMs {
      BrakeIsAStage(profile[..|profile| - 1], elapsed);
    }
  }

  /** A longer time in the timeout state never means a weaker brake, and from the
      last stage on the brake is exactly 1. */
  lemma {:induction false} BrakeNeverWeakens(profile: seq<Stage>, early: int, late: int)
    requires profile != [] ==>
      && (forall i, j | 0 <= i < j < |profile| :: profile[i].afterMs < profile[j].afterMs)
      && (forall i, j | 0 <= i <= j < |profile| :: profile[i].brake <= profile[j].brake)
      && (forall i | 0 <= i < |profile| :: 0.0 <= profile[i].brake)
    requires early <= late
    ensures BrakeAt(profile, early) <= BrakeAt(profile, late)
  {
    if profile != [] {
      var n := |profile| - 1;
      if late < profile[n].afterMs {
        BrakeNeverWeakens(profile[..n], early, late);
      } else if early < profile[n].afterMs {
        BrakeIsAStage(profile[..n], early);
      }
    }
  }

  // ---------------------------------------------------------------------
  // The state machine as a value
  // ---------------------------------------------------------------------

  datatype State = Init | Standby | ControlActive | Degraded | TimeoutBrake | Estop | Fault

  datatype Config = Config(degradedMs: int, timeoutMs: int, profile: seq<Stage>) {
    /** What the constructor leaves behind; it throws otherwise. */
    ghost predicate Valid() {
      0 < degradedMs < timeoutMs && Normalised(profile)
    }
  }

  datatype Machine = Machine(
    state: State, lastCommand: Option<Command>, lastReceive: Option<int>, timeoutEntered: Option<int>)
  {
    predicate Latched() {
      state == Estop || state == Fault
    }

    function MarkReady(): Machine {
      if state == Init then this.(state := Standby) else this
    }

    function MarkFault(): Machine {
      this.(state := Fault)
    }

    function OnValidCommand(command: Command, now: int): Machine {
      if command.estop then Machine(Estop, Some(command), Some(now), timeoutEntered)
      else if Latched() then this
      else Machine(ControlActive, Some(command), Some(now), None)
    }

    function Tick(config: Config, now: int): Machine {
      if state == Init || state == Standby || Latched() || lastReceive.None? then this
      else if now - lastReceive.value >= config.timeoutMs then
        this.(
          state := TimeoutBrake,
          timeoutEntered := if state == TimeoutBrake then timeoutEntered else Some(now))
      else if now - lastReceive.value >= config.degradedMs then this.(state := Degraded)
      else this
    }

    function ResetToStandby(): Machine {
      if Latched() then this else STANDBY
    }

    function ResetEstop(confirmed: bool, authorizedBy: string): Machine {
      if state != Estop || !confirmed || authorizedBy == "" then this else STANDBY
    }

    function TimeoutElapsed(now: int): int {
      if timeoutEntered.Some? then now - timeoutEntered.value else 0
    }

    function Output(config: Config, now: int): ControlOutput {
      var gear := if lastCommand.Some? then lastCommand.value.gear else NeutralGear;
      match state
      case ControlActive =>
        if lastCommand.Some? then
          var c := lastCommand.value;
          ControlOutput(gear, c.steering, c.throttle, c.brake, false, false)
        else IDLE_OUTPUT
      case Degraded =>
        if lastCommand.Some? then
          var c := lastCommand.value;
          ControlOutput(gear, c.steering, 0.0, c.brake, false, false)
        else ControlOutput(gear, 0.0, 0.0, 0.0, false, false)
      case TimeoutBrake =>
        var brake := BrakeAt(config.profile, TimeoutElapsed(now));
        ControlOutput(gear, 0.0, 0.0, brake, false, brake >= 1.0)
      case Estop => ControlOutput(gear, 0.0, 0.0, 1.0, true, true)
      case Fault => ControlOutput(gear, 0.0, 0.0, 1.0, false, true)
      case Init => IDLE_OUTPUT
      case Standby => IDLE_OUTPUT
    }
  }

  const POWERED_UP: Machine := Machine(Init, None, None, None)
  const STANDBY: Machine := Machine(Standby, None, None, None)
  const IDLE_OUTPUT: ControlOutput := ControlOutput(NeutralGear, 0.0, 0.0, 0.0, false, false)

  // ---------------------------------------------------------------------
  // The object
  // ---------------------------------------------------------------------

  class SafetyStateMachine {
    const config: Config
    var state: State
    var lastCommand: Option<Command>
    var lastReceive: Option<int>
    var timeoutEntered: Option<int>

    ghost function View(): Machine
      reads this
    {
      Machine(state, lastCommand, lastReceive, timeoutEntered)
    }

    constructor (config: Config)
      requires config.Valid()
      ensures this.config == config && View() == POWERED_UP
    {
      this.config := config;
      state := Init;
      lastCommand, lastReceive, timeoutEntered := None, None, None;
    }

    method MarkReady()
      modifies this
      ensures View() == old(View()).MarkReady()
    {
      if state == Init {
        state := Standby;
      }
    }

    method OnValidCommand(command: Command, now: int)
      modifies this
      ensures View() == old(View()).OnValidCommand(command, now)
    {
      if command.estop {
        lastCommand := Some(command);
        lastReceive := Some(now);
        state := Estop;
        return;
      }
      if state == Estop || state == Fault {
        return;
      }
      lastCommand := Some(command);
      lastReceive := Some(now);
      timeoutEntered := None;
      state := ControlActive;
    }

    method Tick(now: int)
      modifies this
      ensures View() == old(View()).Tick(config, now)
    {
      if state == Init || state == Standby || state == Estop || state == Fault || lastReceive.None? {
        return;
      }
      var elapsed := now - lastReceive.value;
      if elapsed >= config.timeoutMs {
        if state != TimeoutBrake {
          timeoutEntered := Some(now);
        }
        state := TimeoutBrake;
      } else if elapsed >= config.degradedMs {
        state := Degraded;
      }
    }

    method CurrentOutput(now: int) returns (output: ControlOutput)
      ensures output == View().Output(config, now)
    {
      var gear := if lastCommand.Some? then lastCommand.value.gear else NeutralGear;
      var steering := if lastCommand.Some? then lastCommand.value.steering else 0.0;
      output := IDLE_OUTPUT;
      match state {
        case ControlActive =>
          if lastCommand.Some? {
            output := ControlOutput(
              gear, steering, lastCommand.value.throttle, lastCommand.value.brake, false, false);
          }
        case Degraded =>
          var brake := if lastCommand.Some? then lastCommand.value.brake else 0.0;
          output := ControlOutput(gear, steering, 0.0, brake, false, false);
        case TimeoutBrake =>
          var brake := BrakeForTimeout(now);
          output := ControlOutput(gear, 0.0, 0.0, brake, false, brake >= 1.0);
        case Estop => output := ControlOutput(gear, 0.0, 0.0, 1.0, true, true);
        case Fault => output := ControlOutput(gear, 0.0, 0.0, 1.0, false, true);
        case Init =>
        case Standby =>
      }
    }

    method BrakeForTimeout(now: int) returns (chosen: real)
      ensures chosen == BrakeAt(config.profile, View().TimeoutElapsed(now))
    {
      var entered := if timeoutEntered.Some? then timeoutEntered.value else now;
      var elapsed := now - entered;
      chosen := 0.0;
      var i := 0;
      while i < |config.profile|
        invariant 0 <= i <= |config.profile|
        invariant chosen == BrakeAt(config.profile[..i], elapsed)
      {
        assert config.profile[..i + 1][..i] == config.profile[..i];
        if elapsed >= config.profile[i].afterMs {
          chosen := config.profile[i].brake;
        }
        i := i + 1;
      }
      assert config.profile[..i] == config.profile;
    }

    method ResetEstop(confirmed: bool, authorizedBy: string) returns (reset: bool)
      modifies this
      ensures View() == old(View()).ResetEstop(confirmed, authorizedBy)
      ensures reset <==> old(state) == Estop && confirmed && authorizedBy != ""
    {
      if state != Estop || !confirmed || authorizedBy == "" {
        return false;
      }
      EnterStandby();
      return true;
    }

    method ResetToStandby() returns (reset: bool)
      modifies this
      ensures View() == old(View()).ResetToStandby()
      ensures reset <==> !old(View()).Latched()
    {
      if state == Estop || state == Fault {
        return false;
      }
      EnterStandby();
      return true;
    }

    method EnterStandby()
      modifies this
      ensures View() == STANDBY
    {
      lastCommand := None;
      lastReceive := None;
      timeoutEntered := None;
      state := Standby;
    }

    method MarkFault()
      modifies this
      ensures View() == old(View()).MarkFault()
    {
      state := Fault;
    }
  }
}
