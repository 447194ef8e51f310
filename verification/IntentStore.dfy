/** The driver-side store of the latest browser input. The native sender samples
    it on its own clock; input that is too old, or that follows a transport
    failure or a page change, is withheld until a fresh neutral input arrives. */
module IntentStore {
  import opened ControlTypes

  datatype Intent = Intent(
    ui: string, number: nat, gear: Gear, steering: real, throttle: real, brake: real, estop: bool)
  {
    predicate Valid() {
      && 0 < |ui| <= 128
      && (forall i | 0 <= i < |ui| :: UiCharacter(ui[i]))
      && number > 0
      && KnownGear(gear)
      && InRange(steering, -1.0, 1.0)
      && InRange(throttle, 0.0, 1.0)
      && InRange(brake, 0.0, 1.0)
    }

    predicate Neutral() {
      !estop && Abs(steering) <= TOLERANCE && throttle <= TOLERANCE && brake <= TOLERANCE
    }

    /** Some actuator is asked to move. */
    predicate Actuates() {
      Abs(steering) > TOLERANCE || throttle > TOLERANCE || brake > TOLERANCE
    }

    function Released(): Intent {
      this.(steering := 0.0, throttle := 0.0, brake := 0.0)
    }
  }

  predicate UiCharacter(c: char) {
    '0' <= c <= '9' || 'a' <= c <= 'z' || 'A' <= c <= 'Z' || c == '-' || c == '_'
  }

  /** The default-constructed intent of an inactive sample. */
  const BLANK: Intent := Intent("", 0, NeutralGear, 0.0, 0.0, 0.0, false)

  datatype UpdateResult = UpdateResult(
    accepted: bool, duplicate: bool, requiresFresh: bool, reason: Cause)

  datatype Sample = Sample(active: bool, current: bool, requiresFresh: bool, intent: Intent)

  datatype Store = Store(
    latest: Option<Intent>, receivedAt: int, requiresFresh: bool, estopLatched: bool)

  /** The state after `reset`, which is also the state of a new store. */
  const EMPTY: Store := Store(None, 0, true, false)

  // ---------------------------------------------------------------------
  // The store's transitions as functions of its state
  // ---------------------------------------------------------------------

  predicate SameUi(s: Store, intent: Intent) {
    s.latest.Some? && s.latest.value.ui == intent.ui
  }

  function Latched(s: Store, intent: Intent): Intent {
    if s.estopLatched || intent.estop then intent.Released().(estop := true) else intent
  }

  /** `None` stands for a thrown argument error, which leaves the store alone. */
  function Update(s: Store, intent: Intent, now: int): (Store, Option<UpdateResult>) {
    if !intent.Valid() || now < 0 then (s, None)
    else
      var stored := Latched(s, intent);
      var same := SameUi(s, intent);
      var withheld := s.requiresFresh || (s.latest.Some? && !same);
      var s1 := s.(requiresFresh := withheld);
      if same && intent.number < s.latest.value.number then
        (s1, Some(UpdateResult(false, false, withheld, OldIntentSeq)))
      else if same && intent.number == s.latest.value.number && stored != s.latest.value then
        (s1, Some(UpdateResult(false, false, withheld, IntentSeqConflict)))
      else if withheld && !intent.Neutral() && !intent.estop then
        (s1, Some(UpdateResult(
          false, same && intent.number == s.latest.value.number, true, FreshNeutralRequired)))
      else
        var duplicate := same && intent.number == s.latest.value.number;
        var stillFresh := withheld && !intent.Neutral();
        (Store(Some(stored), now, stillFresh, s.estopLatched || stored.estop),
         Some(UpdateResult(true, duplicate, stillFresh, if duplicate then AsRefresh else AsRequested)))
  }

  function Age(s: Store, now: int): int {
    if now - s.receivedAt < 0 then 0 else now - s.receivedAt
  }

  /** Taking a sample at `now` finds input that is too old to be used. */
  predicate ObservesExpiry(lease: int, s: Store, now: int) {
    && now >= 0
    && s.latest.Some?
    && Age(s, now) >= lease
    && !s.latest.value.Neutral()
    && !s.latest.value.estop
  }

  function TakeSample(lease: int, s: Store, now: int): (Store, Option<Sample>) {
    if now < 0 then (s, None)
    else if s.latest.None? then (s, Some(Sample(false, false, true, BLANK)))
    else
      var latest := s.latest.value;
      var withheld := s.requiresFresh || ObservesExpiry(lease, s, now);
      var effective := if withheld && !latest.estop then latest.Released() else latest;
      (s.(requiresFresh := withheld),
       Some(Sample(true, Age(s, now) < lease, withheld, effective.(estop := s.estopLatched))))
  }

  // ---------------------------------------------------------------------
  // The object the sender and the page share
  // ---------------------------------------------------------------------

  class NativeControlIntentStore {
    const leaseMs: int
    var latest: Option<Intent>
    var receivedAt: int
    var requiresFreshInput: bool
    var estopLatched: bool

    ghost function View(): Store
      reads this
    {
      Store(latest, receivedAt, requiresFreshInput, estopLatched)
    }

    /** The source throws on any other lease, so no such store exists. */
    constructor (lease: int)
      requires 100 <= lease <= 1000
      ensures leaseMs == lease && View() == EMPTY
    {
      leaseMs := lease;
      latest := None;
      receivedAt := 0;
      requiresFreshInput := true;
      estopLatched := false;
    }

    method UpdateIntent(incoming: Intent, now: int) returns (result: Option<UpdateResult>)
      modifies this
      ensures (View(), result) == Update(old(View()), incoming, now)
    {
      if !incoming.Valid() || now < 0 {
        return None;
      }
      var incomingEstop := incoming.estop;
      var incomingNeutral := incoming.Neutral();
      var intent := incoming;
      if estopLatched || intent.estop {
        intent := intent.(estop := true, steering := 0.0, throttle := 0.0, brake := 0.0);
      }
      var sameUi := latest.Some? && latest.value.ui == intent.ui;
      if latest.Some? && !sameUi {
        requiresFreshInput := true;
      }
      if sameUi && intent.number < latest.value.number {
        return Some(UpdateResult(false, false, requiresFreshInput, OldIntentSeq));
      }
      if sameUi && intent.number == latest.value.number && intent != latest.value {
        return Some(UpdateResult(false, false, requiresFreshInput, IntentSeqConflict));
      }
      if requiresFreshInput && !incomingNeutral && !incomingEstop {
        return Some(UpdateResult(
          false, sameUi && intent.number == latest.value.number, true, FreshNeutralRequired));
      }
      var duplicate := sameUi && intent.number == latest.value.number;
      if requiresFreshInput && incomingNeutral {
        requiresFreshInput := false;
      }
      if intent.estop {
        estopLatched := true;
      }
      latest := Some(intent);
      receivedAt := now;
      return Some(UpdateResult(
        true, duplicate, requiresFreshInput, if duplicate then AsRefresh else AsRequested));
    }

    method SampleIntent(now: int) returns (sample: Option<Sample>)
      modifies this
      ensures (View(), sample) == TakeSample(leaseMs, old(View()), now)
    {
      if now < 0 {
        return None;
      }
      if latest.None? {
        return Some(Sample(false, false, true, BLANK));
      }
      var age := now - receivedAt;
      if age < 0 {
        age := 0;
      }
      var current := age < leaseMs;
      if !current && !latest.value.Neutral() && !latest.value.estop {
        requiresFreshInput := true;
      }
      var effective := latest.value;
      if requiresFreshInput && !effective.estop {
        effective := effective.(steering := 0.0, throttle := 0.0, brake := 0.0);
      }
      effective := effective.(estop := estopLatched);
      return Some(Sample(true, current, requiresFreshInput, effective));
    }

    method Invalidate()
      modifies this
      ensures View() == old(View()).(requiresFresh := true)
    {
      requiresFreshInput := true;
    }

    method Reset()
      modifies this
      ensures View() == EMPTY
    {
      latest := None;
      receivedAt := 0;
      requiresFreshInput := true;
      estopLatched := false;
    }
  }

  // ---------------------------------------------------------------------
  // Whole runs
  // ---------------------------------------------------------------------

  datatype Op = UpdateOp(intent: Intent, at: int) | SampleOp(at: int) | InvalidateOp | ResetOp

  function Step(lease: int, s: Store, op: Op): Store {
    match op
    case UpdateOp(intent, at) => Update(s, intent, at).0
    case SampleOp(at) => TakeSample(lease, s, at).0
    case InvalidateOp => s.(requiresFresh := true)
    case ResetOp => EMPTY
  }

  /** The state after a run that starts from a new or freshly reset store. */
  function Run(lease: int, ops: seq<Op>): Store {
    if ops == [] then EMPTY else Step(lease, Run(lease, ops[..|ops| - 1]), ops[|ops| - 1])
  }

  /** An accepted neutral input, the only event that re-arms the store. */
  predicate Arms(s: Store, op: Op) {
    op.UpdateOp? && op.intent.Neutral() && Update(s, op.intent, op.at).1.Some?
    && Update(s, op.intent, op.at).1.value.accepted
  }

  /** The events after which a held input must not move the vehicle: a reset, an
      invalidation, input from another page, or a sample that observes expiry. */
  predicate Revokes(lease: int, s: Store, op: Op) {
    match op
    case UpdateOp(intent, at) => intent.Valid() && at >= 0 && s.latest.Some? && !SameUi(s, intent)
    case SampleOp(at) => ObservesExpiry(lease, s, at)
    case InvalidateOp => true
    case ResetOp => true
  }

  /** The run's k-th operation armed the store and nothing revoked it since. */
  predicate ArmedAt(lease: int, ops: seq<Op>, k: nat) {
    && k < |ops|
    && Arms(Run(lease, ops[..k]), ops[k])
    && forall j | k < j < |ops| :: !Revokes(lease, Run(lease, ops[..j]), ops[j])
  }

  lemma RunPrefix(lease: int, ops: seq<Op>)
    requires ops != []
    ensures Run(lease, ops) == Step(lease, Run(lease, ops[..|ops| - 1]), ops[|ops| - 1])
    ensures forall j | 0 <= j < |ops| :: ops[..|ops| - 1][..j] == ops[..j]
  {
  }

  /** Whenever input may pass, some earlier neutral input armed the store and no
      revocation came after it. */
  lemma {:induction false} ReadyMeansArmed(lease: int, ops: seq<Op>)
    requires !Run(lease, ops).requiresFresh
    ensures exists k: nat :: ArmedAt(lease, ops, k)
  {
    assert ops != [];
    var n := |ops| - 1;
    var s := Run(lease, ops[..n]);
    RunPrefix(lease, ops);
    if Arms(s, ops[n]) {
      assert ArmedAt(lease, ops, n);
    } else {
      assert !Revokes(lease, s, ops[n]);
      assert !s.requiresFresh;
      ReadyMeansArmed(lease, ops[..n]);
      var k: nat :| ArmedAt(lease, ops[..n], k);
      assert ops[..n][k] == ops[k];
      assert ArmedAt(lease, ops, k) by {
        forall j | k < j < |ops| ensures !Revokes(lease, Run(lease, ops[..j]), ops[j]) {
          if j < n {
            assert ops[..n][j] == ops[j];
            assert ops[..n][..j] == ops[..j];
          }
        }
      }
    }
  }

  lemma StepKeepsReady(lease: int, s: Store, op: Op)
    requires Arms(s, op) || (!s.requiresFresh && !Revokes(lease, s, op))
    ensures !Step(lease, s, op).requiresFresh
  {
  }

  lemma ArmedBefore(lease: int, ops: seq<Op>, k: nat, n: nat)
    requires ArmedAt(lease, ops, k) && k < n <= |ops|
    ensures ArmedAt(lease, ops[..n], k)
  {
    var front := ops[..n];
    assert front[..k] == ops[..k];
    forall j | k < j < n ensures !Revokes(lease, Run(lease, front[..j]), front[j]) {
      assert front[..j] == ops[..j];
    }
  }

  lemma {:induction false} ArmedMeansReady(lease: int, ops: seq<Op>, k: nat)
    requires ArmedAt(lease, ops, k)
    ensures !Run(lease, ops).requiresFresh
  {
    var n := |ops| - 1;
    if k < n {
      ArmedBefore(lease, ops, k, n);
      ArmedMeansReady(lease, ops[..n], k);
    }
    StepKeepsReady(lease, Run(lease, ops[..n]), ops[n]);
  }

  /** Main result: in every run, a sample asks an actuator to move if and only if
      the stored intent does, no ESTOP is latched, the intent is younger than the
      lease, and a neutral input has armed the store and nothing revoked it since. */
  lemma ActuationExactly(lease: int, ops: seq<Op>, now: int)
    requires lease > 0 && now >= 0
    ensures var s := Run(lease, ops);
      var sample := TakeSample(lease, s, now).1;
      sample.Some? && sample.value.active && !sample.value.intent.estop && sample.value.intent.Actuates() <==>
        && s.latest.Some? && s.latest.value.Actuates() && !s.estopLatched && Age(s, now) < lease
        && (exists k: nat :: ArmedAt(lease, ops, k))
  {
    LatchZeroesIntent(lease, ops);
    if !Run(lease, ops).requiresFresh {
      ReadyMeansArmed(lease, ops);
    } else {
      forall k: nat | ArmedAt(lease, ops, k) ensures false {
        ArmedMeansReady(lease, ops, k);
      }
    }
  }

  /** Main result: in every run, a sample that is not an ESTOP and asks any
      actuator to move carries an intent younger than the lease, and the store
      was armed by a neutral input that nothing has revoked since. The intent
      is the stored one, unchanged. */
  lemma {:induction false} ActuationNeedsFreshArmedIntent(lease: int, ops: seq<Op>, now: int)
    requires lease > 0
    requires TakeSample(lease, Run(lease, ops), now).1.Some?
    requires var sample := TakeSample(lease, Run(lease, ops), now).1.value;
      sample.active && !sample.intent.estop && sample.intent.Actuates()
    ensures var s := Run(lease, ops);
      && s.latest.Some?
      && TakeSample(lease, s, now).1.value.intent == s.latest.value
      && now - s.receivedAt < lease
      && !s.requiresFresh
      && !ObservesExpiry(lease, s, now)
      && (exists k: nat :: ArmedAt(lease, ops, k))
  {
    var s := Run(lease, ops);
    LatchZeroesIntent(lease, ops);
    ReadyMeansArmed(lease, ops);
  }

  /** The latch and the stored intent agree: latched means a stored ESTOP with
      every actuator released, and a stored ESTOP means latched. */
  lemma {:induction false} LatchZeroesIntent(lease: int, ops: seq<Op>)
    ensures var s := Run(lease, ops);
      && (s.estopLatched ==>
            s.latest.Some? && s.latest.value.estop && s.latest.value == s.latest.value.Released())
      && (s.latest.Some? && s.latest.value.estop ==> s.estopLatched)
  {
    if ops != [] {
      LatchZeroesIntent(lease, ops[..|ops| - 1]);
    }
  }

  /** Main result: once an ESTOP intent has been accepted, every later sample up
      to the next reset is an ESTOP with every actuator released. */
  lemma {:induction false} EstopSticksUntilReset(lease: int, ops: seq<Op>, k: nat, now: int)
    requires k < |ops| && ops[k].UpdateOp? && ops[k].intent.estop
    requires Update(Run(lease, ops[..k]), ops[k].intent, ops[k].at).1.Some?
    requires Update(Run(lease, ops[..k]), ops[k].intent, ops[k].at).1.value.accepted
    requires forall j | k < j < |ops| :: !ops[j].ResetOp?
    requires now >= 0
    ensures var sample := TakeSample(lease, Run(lease, ops), now).1;
      && sample.Some? && sample.value.active && sample.value.intent.estop
      && sample.value.intent == sample.value.intent.Released()
  {
    LatchSurvives(lease, ops, k);
    LatchZeroesIntent(lease, ops);
  }

  lemma {:induction false} LatchSurvives(lease: int, ops: seq<Op>, k: nat)
    requires k < |ops| && ops[k].UpdateOp? && ops[k].intent.estop
    requires Update(Run(lease, ops[..k]), ops[k].intent, ops[k].at).1.Some?
    requires Update(Run(lease, ops[..k]), ops[k].intent, ops[k].at).1.value.accepted
    requires forall j | k < j < |ops| :: !ops[j].ResetOp?
    ensures Run(lease, ops).estopLatched
  {
    var n := |ops| - 1;
    RunPrefix(lease, ops);
    if k < n {
      assert ops[..n][..k] == ops[..k];
      assert forall j | k < j < n :: ops[..n][j] == ops[j];
      LatchSurvives(lease, ops[..n], k);
    }
  }
}
