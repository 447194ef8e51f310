/** The four-timestamp clock synchronisation: how far the estimate can be from
    the true offset. */
module ClockSync {
  import opened ControlTypes

  /** One exchange with the time endpoint: the client's times, and the server's
      echo of the first and its own times. */
  datatype Exchange = Exchange(sent: int, echoed: int, serverReceived: int, serverSent: int, received: int)
  {
    predicate Acceptable() {
      echoed == sent && serverSent >= serverReceived
    }

    /** The server's clock is `theta` ahead and nothing arrives before it is sent. */
    ghost predicate Honest(theta: real) {
      && sent as real + theta <= serverReceived as real
      && serverSent as real - theta <= received as real
    }
  }

  datatype Sample = Sample(offset: int, trip: nat)

  datatype Status = Status(synchronized: bool, offset: int, trip: nat, uncertainty: int, at: int, count: nat)

  /** Integer division by two as the program does it, towards zero. */
  function Half(x: int): int {
    if x >= 0 then x / 2 else -((-x) / 2)
  }

  function SampleOf(e: Exchange): Sample {
    var trip := e.received - e.sent - (e.serverSent - e.serverReceived);
    Sample(Half((e.serverReceived - e.sent) + (e.serverSent - e.received)), if trip < 0 then 0 else trip)
  }

  /** The offset of one sample is off by at most half its round trip, rounded up:
      rounding costs nothing when the round trip is even. */
  lemma SampleBound(e: Exchange, theta: real)
    requires e.Acceptable() && e.Honest(theta)
    ensures var s := SampleOf(e);
      -(((s.trip + 1) / 2) as real) <= s.offset as real - theta <= ((s.trip + 1) / 2) as real
  {
    var trip := e.received - e.sent - (e.serverSent - e.serverReceived);
    var twice := (e.serverReceived - e.sent) + (e.serverSent - e.received);
    assert twice + trip == 2 * (e.serverReceived - e.sent);
    assert -(trip as real) <= twice as real - 2.0 * theta <= trip as real;
    assert trip as real >= 0.0;
    var offset := Half(twice);
    if twice % 2 == 0 {
      assert 2 * offset == twice;
      assert trip % 2 == 0 && 2 * ((trip + 1) / 2) == trip;
    } else {
      assert twice - 1 <= 2 * offset <= twice + 1;
      assert trip % 2 == 1 && 2 * ((trip + 1) / 2) == trip + 1;
    }
  }

  // ---------------------------------------------------------------------
  // The estimate
  // ---------------------------------------------------------------------

  function InsertByTrip(sorted: seq<Sample>, s: Sample): seq<Sample> {
    if sorted == [] || sorted[|sorted| - 1].trip <= s.trip then sorted + [s]
    else InsertByTrip(sorted[..|sorted| - 1], s) + [sorted[|sorted| - 1]]
  }

  function ByTrip(samples: seq<Sample>): seq<Sample> {
    if samples == [] then [] else InsertByTrip(ByTrip(samples[..|samples| - 1]), samples[|samples| - 1])
  }

  function Larger(a: int, b: int): int {
    if a < b then b else a
  }

  function Distance(a: int, b: int): nat {
    if a < b then b - a else a - b
  }

  function Median(a: int, b: int, c: int): int {
    if a <= b then (if b <= c then b else Larger(a, c))
    else (if a <= c then a else Larger(b, c))
  }

  function Spread(middle: int, a: int, b: int, c: int): int {
    Larger(Larger(Distance(a, middle), Distance(b, middle)), Distance(c, middle))
  }

  /** The median offset of the three quickest samples. The uncertainty is the
      larger of half the best round trip and their spread, not the sum. */
  function Estimate(sorted: seq<Sample>, at: int): Status
    requires |sorted| >= 3
  {
    var a, b, c := sorted[0].offset, sorted[1].offset, sorted[2].offset;
    var middle := Median(a, b, c);
    Status(
      true, middle, sorted[0].trip, Larger((sorted[0].trip + 1) / 2, Spread(middle, a, b, c)), at, |sorted|)
  }

  /** Whatever the order in which equally quick samples are taken, and however
      many there are, the estimate is off by at most half the best round trip
      plus the spread, hence by at most twice the stated uncertainty. */
  lemma EstimateBound(sorted: seq<Sample>, at: int, best: Exchange, theta: real)
    requires |sorted| >= 3 && best.Acceptable() && best.Honest(theta) && sorted[0] == SampleOf(best)
    ensures var status := Estimate(sorted, at);
      var spread := Spread(status.offset, sorted[0].offset, sorted[1].offset, sorted[2].offset);
      var bound := (status.trip + 1) / 2 + spread;
      && -(bound as real) <= status.offset as real - theta <= bound as real
      && bound <= 2 * status.uncertainty
  {
    SampleBound(best, theta);
    var status := Estimate(sorted, at);
    assert Distance(sorted[0].offset, status.offset)
        <= Spread(status.offset, sorted[0].offset, sorted[1].offset, sorted[2].offset);
  }

  ghost predicate InOrder(sorted: seq<Sample>) {
    forall i, j | 0 <= i < j < |sorted| :: sorted[i].trip <= sorted[j].trip
  }

  lemma {:induction false} InsertByTripSorts(sorted: seq<Sample>, s: Sample)
    requires InOrder(sorted)
    ensures InOrder(InsertByTrip(sorted, s)) && |InsertByTrip(sorted, s)| == |sorted| + 1
    ensures forall x :: x in InsertByTrip(sorted, s) <==> x in sorted || x == s
  {
    if sorted != [] {
      var n := |sorted| - 1;
      assert sorted == sorted[..n] + [sorted[n]];
      if sorted[n].trip > s.trip {
        InsertByTripSorts(sorted[..n], s);
        var inner := InsertByTrip(sorted[..n], s);
        forall i | 0 <= i < |inner| ensures inner[i].trip <= sorted[n].trip {
          assert inner[i] in sorted[..n] || inner[i] == s;
        }
      }
    }
  }

  lemma {:induction false} ByTripSorts(samples: seq<Sample>)
    ensures InOrder(ByTrip(samples)) && |ByTrip(samples)| == |samples|
    ensures forall x :: x in ByTrip(samples) <==> x in samples
  {
    if samples != [] {
      var n := |samples| - 1;
      ByTripSorts(samples[..n]);
      InsertByTripSorts(ByTrip(samples[..n]), samples[n]);
      assert samples == samples[..n] + [samples[n]];
    }
  }

  // ---------------------------------------------------------------------
  // The clock
  // ---------------------------------------------------------------------

  function SamplesOf(exchanges: seq<Exchange>): seq<Sample> {
    seq(|exchanges|, i requires 0 <= i < |exchanges| => SampleOf(exchanges[i]))
  }

  /** What a synchronisation with these exchanges, finished at `at`, ends in. */
  function Synchronized(exchanges: seq<Exchange>, at: int): Option<Status> {
    if |exchanges| < 3 || |exchanges| > 15 || exists i | 0 <= i < |exchanges| :: !exchanges[i].Acceptable() then None
    else
      ByTripSorts(SamplesOf(exchanges));
      Some(Estimate(ByTrip(SamplesOf(exchanges)), at))
  }

  /** If the server's clock was `theta` ahead throughout, the new offset is within
      twice the stated uncertainty of it, for every number of samples. */
  lemma SynchronizedBound(exchanges: seq<Exchange>, at: int, theta: real)
    requires Synchronized(exchanges, at).Some?
    requires AllHonest(exchanges, theta)
    ensures var status := Synchronized(exchanges, at).value;
      var bound := 2 * status.uncertainty;
      -(bound as real) <= status.offset as real - theta <= bound as real
    ensures forall i | 0 <= i < |exchanges| :: Synchronized(exchanges, at).value.trip <= SampleOf(exchanges[i]).trip
  {
    var samples := SamplesOf(exchanges);
    var sorted := ByTrip(samples);
    ByTripSorts(samples);
    assert sorted[0] in samples;
    var i :| 0 <= i < |samples| && samples[i] == sorted[0];
    EstimateBound(sorted, at, exchanges[i], theta);
    forall k | 0 <= k < |exchanges| ensures sorted[0].trip <= SampleOf(exchanges[k]).trip {
      assert samples[k] in sorted;
    }
  }

  // ---------------------------------------------------------------------
  // When the stated uncertainty holds
  // ---------------------------------------------------------------------

  /** All exchanges agree with a server that was `theta` ahead throughout. */
  ghost predicate AllHonest(exchanges: seq<Exchange>, theta: real) {
    forall i | 0 <= i < |exchanges| :: exchanges[i].Honest(theta)
  }

  /** The least and the greatest offset that the exchanges leave possible. */
  function Low(exchanges: seq<Exchange>): int
    requires exchanges != []
  {
    var n := |exchanges| - 1;
    var last := exchanges[n].serverSent - exchanges[n].received;
    if n == 0 then last else Larger(Low(exchanges[..n]), last)
  }

  function High(exchanges: seq<Exchange>): int
    requires exchanges != []
  {
    var n := |exchanges| - 1;
    var last := exchanges[n].serverReceived - exchanges[n].sent;
    if n == 0 || last < High(exchanges[..n]) then last else High(exchanges[..n])
  }

  /** The possible offsets are exactly those between the two. */
  lemma {:induction false} HonestExactly(exchanges: seq<Exchange>, theta: real)
    requires exchanges != []
    ensures AllHonest(exchanges, theta) <==> Low(exchanges) as real <= theta <= High(exchanges) as real
  {
    var n := |exchanges| - 1;
    assert exchanges == exchanges[..n] + [exchanges[n]];
    assert exchanges[n].Honest(theta) <==>
      (exchanges[n].serverSent - exchanges[n].received) as real <= theta
      <= (exchanges[n].serverReceived - exchanges[n].sent) as real;
    if n > 0 {
      HonestExactly(exchanges[..n], theta);
    }
    assert AllHonest(exchanges, theta) <==> exchanges[n].Honest(theta) && (n > 0 ==> AllHonest(exchanges[..n], theta));
  }

  /** The offset is wrong by at most what it states. */
  predicate WithinStated(status: Status, theta: real) {
    -(status.uncertainty as real) <= status.offset as real - theta <= status.uncertainty as real
  }

  /** Main result: the stated uncertainty holds for every offset that the
      exchanges leave possible if and only if they leave none, or both the least
      and the greatest of them are within it. */
  lemma StatedUncertaintyExactly(exchanges: seq<Exchange>, at: int)
    requires Synchronized(exchanges, at).Some?
    ensures var status := Synchronized(exchanges, at).value;
      var low, high := Low(exchanges), High(exchanges);
      (forall theta: real | AllHonest(exchanges, theta) :: WithinStated(status, theta)) <==>
        low > high || (status.offset - status.uncertainty <= low && high <= status.offset + status.uncertainty)
  {
    var status := Synchronized(exchanges, at).value;
    var low, high := Low(exchanges), High(exchanges);
    HonestExactly(exchanges, low as real);
    HonestExactly(exchanges, high as real);
    if low <= high {
      assert AllHonest(exchanges, low as real) && AllHonest(exchanges, high as real);
    }
    forall theta: real | AllHonest(exchanges, theta) ensures low as real <= theta <= high as real {
      HonestExactly(exchanges, theta);
    }
  }

  /** The factor two is attained: with these three exchanges and equal clocks the
      offset is 10, wrong by exactly twice the stated uncertainty of 5. */
  function SlowUplinks(): seq<Exchange> {
    [Exchange(0, 0, 10, 10, 10), Exchange(20, 20, 40, 40, 40), Exchange(50, 50, 72, 72, 72)]
  }

  lemma {:induction false} AlreadySorted(samples: seq<Sample>)
    requires InOrder(samples)
    ensures ByTrip(samples) == samples
  {
    if samples != [] {
      var n := |samples| - 1;
      AlreadySorted(samples[..n]);
      assert samples == samples[..n] + [samples[n]];
    }
  }

  lemma SlowUplinkSamples()
    ensures SamplesOf(SlowUplinks()) == [Sample(5, 10), Sample(10, 20), Sample(11, 22)]
    ensures forall i | 0 <= i < 3 :: SlowUplinks()[i].Acceptable() && SlowUplinks()[i].Honest(0.0)
  {
    var es := SlowUplinks();
    assert SampleOf(es[0]) == Sample(5, 10) && es[0].Honest(0.0);
    assert SampleOf(es[1]) == Sample(10, 20) && es[1].Honest(0.0);
    assert SampleOf(es[2]) == Sample(11, 22) && es[2].Honest(0.0);
  }

  lemma SlowUplinkEstimate(samples: seq<Sample>)
    requires samples == [Sample(5, 10), Sample(10, 20), Sample(11, 22)]
    ensures ByTrip(samples) == samples
    ensures Estimate(samples, 100) == Status(true, 10, 10, 5, 100, 3)
  {
    AlreadySorted(samples);
  }

  lemma TwiceTheUncertaintyIsAttained()
    ensures AllHonest(SlowUplinks(), 0.0)
    ensures Synchronized(SlowUplinks(), 100) == Some(Status(true, 10, 10, 5, 100, 3))
  {
    SlowUplinkSamples();
    SlowUplinkEstimate(SamplesOf(SlowUplinks()));
  }

  class SynchronizedClock {
    var status: Status
    var anchor: int
    var steadyAnchor: int

    constructor ()
      ensures !status.synchronized
    {
      status := Status(false, 0, 0, 0, 0, 0);
      anchor, steadyAnchor := 0, 0;
    }

    /** An unusable sample leaves the clock as it was. */
    method Synchronize(exchanges: seq<Exchange>, at: int, steady: int) returns (ok: bool)
      modifies this
      ensures ok == Synchronized(exchanges, at).Some?
      ensures ok ==>
        status == Synchronized(exchanges, at).value && anchor == at + status.offset && steadyAnchor == steady
      ensures !ok ==> status == old(status) && anchor == old(anchor) && steadyAnchor == old(steadyAnchor)
    {
      if |exchanges| < 3 || |exchanges| > 15 {
        return false;
      }
      var samples: seq<Sample> := [];
      ghost var all := SamplesOf(exchanges);
      for index := 0 to |exchanges|
        invariant samples == all[..index]
        invariant forall i | 0 <= i < index :: exchanges[i].Acceptable()
      {
        var e := exchanges[index];
        if e.echoed != e.sent || e.serverSent < e.serverReceived {
          return false;
        }
        var processing := e.serverSent - e.serverReceived;
        var trip := e.received - e.sent - processing;
        var offset := Half((e.serverReceived - e.sent) + (e.serverSent - e.received));
        samples := samples + [Sample(offset, if trip < 0 then 0 else trip)];
      }
      assert all[..|exchanges|] == all;
      var sorted := Sort(samples);
      ByTripSorts(samples);
      var offsets: seq<int> := [];
      for index := 0 to 3
        invariant |offsets| == index && forall i | 0 <= i < index :: offsets[i] == sorted[i].offset
      {
        offsets := offsets + [sorted[index].offset];
      }
      var ordered := SortThree(offsets);
      var selected := ordered[1];
      var spread := 0;
      for index := 0 to 3
        invariant spread == (
          if index == 0 then 0
          else if index == 1 then Distance(ordered[0], selected)
          else if index == 2 then Larger(Distance(ordered[0], selected), Distance(ordered[1], selected))
          else Spread(selected, ordered[0], ordered[1], ordered[2]))
      {
        spread := Larger(spread, Distance(ordered[index], selected));
      }
      status := Status(
        true, selected, sorted[0].trip, Larger((sorted[0].trip + 1) / 2, spread), at, |samples|);
      anchor := at + selected;
      steadyAnchor := steady;
      return true;
    }

    static method Sort(samples: seq<Sample>) returns (sorted: seq<Sample>)
      ensures sorted == ByTrip(samples)
    {
      sorted := [];
      for i := 0 to |samples|
        invariant sorted == ByTrip(samples[..i])
      {
        assert samples[..i + 1][..i] == samples[..i];
        var j := |sorted|;
        assert sorted[..j] == sorted && sorted[j..] == [];
        while j > 0 && !(sorted[j - 1].trip <= samples[i].trip)
          invariant 0 <= j <= |sorted|
          invariant InsertByTrip(sorted, samples[i]) == InsertByTrip(sorted[..j], samples[i]) + sorted[j..]
        {
          assert sorted[..j][..j - 1] == sorted[..j - 1];
          assert [sorted[j - 1]] + sorted[j..] == sorted[j - 1..];
          j := j - 1;
        }
        sorted := sorted[..j] + [samples[i]] + sorted[j..];
      }
      assert samples[..|samples|] == samples;
    }

    static method SortThree(offsets: seq<int>) returns (ordered: seq<int>)
      requires |offsets| == 3
      ensures |ordered| == 3 && ordered[0] <= ordered[1] <= ordered[2]
      ensures ordered[1] == Median(offsets[0], offsets[1], offsets[2])
      ensures Spread(ordered[1], ordered[0], ordered[1], ordered[2])
        == Spread(ordered[1], offsets[0], offsets[1], offsets[2])
    {
      var a, b, c := offsets[0], offsets[1], offsets[2];
      if b < a {
        a, b := b, a;
      }
      if c < b {
        b, c := c, b;
      }
      if b < a {
        a, b := b, a;
      }
      ordered := [a, b, c];
    }

    /** The server's time as this clock tells it, `elapsed` after the last
        synchronisation on the steady clock. */
    method Now(local: int, steady: int) returns (now: int)
      ensures now == if status.synchronized then anchor + (steady - steadyAnchor) else local
    {
      if !status.synchronized {
        return local;
      }
      return anchor + (steady - steadyAnchor);
    }
  }
}
