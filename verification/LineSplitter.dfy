/** Relayed output cut into lines, cleaned and persisted: what is kept does not
    depend on how the operating system cut the stream into reads. */
module LineSplitter {
  import opened Bytes
  import opened ControlTypes

  const NEWLINE: Byte := 10
  const RETURN: Byte := 13
  const OPEN_BRACE: Byte := 123
  const CLOSE_BRACE: Byte := 125

  /** The vendor's terminal reset sequence. */
  const RESET: seq<Byte> := [27, 91, 48, 109]

  /** A line without its newline may be this long before it is cut. */
  const MOST_PENDING: nat := 64 * 1024

  type Marker = m: seq<Byte> | m != [] witness [0]

  // ---------------------------------------------------------------------
  // Cleaning one line
  // ---------------------------------------------------------------------

  function StripResets(line: seq<Byte>): seq<Byte> {
    if |line| >= 4 && line[..4] == RESET then StripResets(line[4..]) else line
  }

  lemma {:induction false} StripTwice(line: seq<Byte>)
    ensures StripResets(StripResets(line)) == StripResets(line)
  {
    if |line| >= 4 && line[..4] == RESET {
      StripTwice(line[4..]);
    }
  }

  method StripLeadingResets(line: seq<Byte>) returns (rest: seq<Byte>)
    ensures rest == StripResets(line)
  {
    rest := line;
    while |rest| >= 4 && rest[..4] == RESET
      invariant StripResets(rest) == StripResets(line)
      decreases |rest|
    {
      rest := rest[4..];
    }
  }

  /** The line without its newline, and without a carriage return before that. */
  function Unbroken(line: seq<Byte>): seq<Byte> {
    if line == [] || line[|line| - 1] != NEWLINE then line
    else
      var text := line[..|line| - 1];
      if text != [] && text[|text| - 1] == RETURN then text[..|text| - 1] else text
  }

  /** What is left when `marker` is attached directly to the edge of a record. */
  function Detached(line: seq<Byte>, marker: Marker): Option<seq<Byte>> {
    var n, m := |line|, |marker|;
    if n >= m && line[..m] == marker && (n == m || line[m] == OPEN_BRACE) then Some(line[m..])
    else if n >= m && line[n - m..] == marker
      && (n == m || (line[0] == OPEN_BRACE && line[n - m - 1] == CLOSE_BRACE)) then Some(line[..n - m])
    else None
  }

  function DetachedFirst(line: seq<Byte>, markers: seq<Marker>): (rest: Option<seq<Byte>>)
    ensures rest.Some? ==> |rest.value| < |line|
  {
    if markers == [] then None
    else
      var rest := Detached(line, markers[0]);
      if rest.Some? then rest else DetachedFirst(line, markers[1..])
  }

  function Unmarked(line: seq<Byte>, markers: seq<Marker>): seq<Byte>
    decreases |line|
  {
    if line == [] then line
    else
      var rest := DetachedFirst(line, markers);
      if rest.Some? then Unmarked(rest.value, markers) else line
  }

  /** How lines are recognised and dressed. The clock and the vendor's format are
      outside this model: `vendor` says which lines are for the terminal only, and
      `dress` adds the time to what is left. */
  datatype Rules = Rules(
    markers: seq<Marker>, vendor: seq<Byte> -> bool, dress: seq<Byte> -> seq<Byte>)

  /** The record to persist; nothing for a line that is not kept. */
  function Sanitized(rules: Rules, raw: seq<Byte>): seq<Byte> {
    var line := StripResets(raw);
    if rules.vendor(line) then []
    else
      var text := Unmarked(Unbroken(line), rules.markers);
      if text == [] then [] else rules.dress(text)
  }

  lemma StrippedIsSanitizedAlike(rules: Rules, raw: seq<Byte>)
    ensures Sanitized(rules, StripResets(raw)) == Sanitized(rules, raw)
  {
    StripTwice(raw);
  }

  /** Neither brace occurs in a marker. */
  predicate Plain(marker: Marker) {
    forall i | 0 <= i < |marker| :: marker[i] != OPEN_BRACE && marker[i] != CLOSE_BRACE
  }

  /** Only the marker itself comes off where a marker is attached to a record. */
  lemma OnlyThisComesOff(json: seq<Byte>, marker: Marker, other: Marker)
    requires Plain(marker) && Plain(other) && other != marker
    requires |json| >= 2 && json[0] == OPEN_BRACE && json[|json| - 1] == CLOSE_BRACE
    ensures Detached(json, other).None?
    ensures Detached(marker + json, other).None? && Detached(json + marker, other).None?
  {
    var front, back, n := marker + json, json + marker, |other|;
    assert front[|marker|] == json[0] && front[|front| - 1] == json[|json| - 1];
    assert back[0] == json[0] && back[|json| - 1] == json[|json| - 1];
    assert front[..|marker|] == marker && back[|back| - |marker|..] == marker;
    assert other[0] != OPEN_BRACE && other[n - 1] != CLOSE_BRACE;
    assert forall i | 0 <= i < |marker| :: front[i] == marker[i] && back[|json| + i] == marker[i];
    assert n <= |front| ==> front[..n][0] == front[0] && front[|front| - n..][n - 1] == front[|front| - 1];
    assert n <= |back| ==> back[..n][0] == back[0] && back[|back| - n..][n - 1] == back[|back| - 1];
    assert |marker| < n <= |front| ==> front[..n][|marker|] == front[|marker|];
    assert |marker| < n <= |back| ==> back[|back| - n..][n - |marker| - 1] == back[|json| - 1];
  }

  /** A marker that got attached to a structured record, before it or behind it,
      is taken off and the record is left exactly as it was. */
  lemma RecordSurvivesMarker(json: seq<Byte>, marker: Marker, markers: seq<Marker>)
    requires marker in markers && forall m | m in markers :: Plain(m)
    requires |json| >= 2 && json[0] == OPEN_BRACE && json[|json| - 1] == CLOSE_BRACE
    ensures Unmarked(json, markers) == json
    ensures Unmarked(marker + json, markers) == json && Unmarked(json + marker, markers) == json
  {
    forall m | m in markers ensures Detached(json, m).None? {
      assert Plain(m) && m[0] != OPEN_BRACE && m[|m| - 1] != CLOSE_BRACE;
    }
    NothingDetached(json, markers);
    assert (marker + json)[..|marker|] == marker && (marker + json)[|marker|..] == json;
    assert (json + marker)[|json|..] == marker && (json + marker)[..|json|] == json;
    forall m | m in markers && m != marker
      ensures Detached(marker + json, m).None? && Detached(json + marker, m).None?
    {
      OnlyThisComesOff(json, marker, m);
    }
    assert (json + marker)[..|marker|][0] == json[0];
    assert Detached(json + marker, marker) == Some(json);
    OneDetached(marker + json, marker, markers);
    OneDetached(json + marker, marker, markers);
  }

  lemma {:induction false} NothingDetached(line: seq<Byte>, markers: seq<Marker>)
    requires forall m | m in markers :: Detached(line, m).None?
    ensures DetachedFirst(line, markers).None?
  {
    if markers != [] {
      NothingDetached(line, markers[1..]);
    }
  }

  lemma {:induction false} OneDetached(line: seq<Byte>, marker: Marker, markers: seq<Marker>)
    requires marker in markers && forall m | m in markers && m != marker :: Detached(line, m).None?
    requires Detached(line, marker).Some?
    ensures DetachedFirst(line, markers) == Detached(line, marker)
  {
    if markers[0] != marker {
      assert marker in markers[1..];
      OneDetached(line, marker, markers[1..]);
    }
  }

  method SanitizeLine(rules: Rules, raw: seq<Byte>) returns (record: seq<Byte>)
    ensures record == Sanitized(rules, raw)
  {
    var line := StripLeadingResets(raw);
    if rules.vendor(line) {
      return [];
    }
    if line != [] && line[|line| - 1] == NEWLINE {
      line := line[..|line| - 1];
      if line != [] && line[|line| - 1] == RETURN {
        line := line[..|line| - 1];
      }
    }
    line := RemoveMarkers(rules, line);
    return if line == [] then [] else rules.dress(line);
  }

  method RemoveMarkers(rules: Rules, line: seq<Byte>) returns (text: seq<Byte>)
    ensures text == Unmarked(line, rules.markers)
  {
    text := line;
    var changed := true;
    while changed && text != []
      invariant Unmarked(text, rules.markers) == Unmarked(line, rules.markers)
      invariant !changed ==> text == Unmarked(line, rules.markers)
      decreases |text|, changed
    {
      changed := false;
      var k := 0;
      while k < |rules.markers| && !changed
        invariant 0 <= k <= |rules.markers| && !changed
        invariant DetachedFirst(text, rules.markers[k..]) == DetachedFirst(text, rules.markers)
      {
        assert rules.markers[k..][0] == rules.markers[k] && rules.markers[k..][1..] == rules.markers[k + 1..];
        var rest := Detached(text, rules.markers[k]);
        if rest.Some? {
          text := rest.value;
          changed := true;
          break;
        }
        k := k + 1;
      }
    }
  }

  // ---------------------------------------------------------------------
  // Cutting the stream
  // ---------------------------------------------------------------------

  /** The place of the first newline, or the length when there is none. */
  function Break(s: seq<Byte>): (at: nat)
    ensures at <= |s| && (at < |s| ==> s[at] == NEWLINE)
    ensures forall k | 0 <= k < at :: s[k] != NEWLINE
  {
    if s == [] || s[0] == NEWLINE then 0 else 1 + Break(s[1..])
  }

  /** The complete lines, each with its newline. */
  function Lines(s: seq<Byte>): seq<seq<Byte>>
    decreases |s|
  {
    var at := Break(s);
    if at == |s| then [] else [s[..at + 1]] + Lines(s[at + 1..])
  }

  /** What follows the last newline. */
  function Rest(s: seq<Byte>): seq<Byte>
    decreases |s|
  {
    var at := Break(s);
    if at == |s| then s else Rest(s[at + 1..])
  }

  lemma BreakOfSum(a: seq<Byte>, b: seq<Byte>)
    ensures Break(a + b) == if Break(a) < |a| then Break(a) else |a| + Break(b)
  {
    var at := Break(a + b);
    if at < |a| {
      assert (a + b)[at] == a[at];
    }
    if Break(a) < |a| {
      assert (a + b)[Break(a)] == NEWLINE;
      assert forall k | 0 <= k < at && k < |a| :: a[k] == (a + b)[k];
    } else {
      assert forall k | 0 <= k < |b| :: (a + b)[|a| + k] == b[k];
    }
  }

  /** The lines of a stream are those of its beginning and those that its rest
      gives together with what follows. */
  lemma {:induction false} LinesOfSum(a: seq<Byte>, b: seq<Byte>)
    ensures Lines(a + b) == Lines(a) + Lines(Rest(a) + b)
    decreases |a|
  {
    var at := Break(a);
    BreakOfSum(a, b);
    if at < |a| {
      SumSlices(a, b, at + 1);
      assert Lines(a + b) == [a[..at + 1]] + Lines(a[at + 1..] + b);
      assert Rest(a) == Rest(a[at + 1..]);
      LinesOfSum(a[at + 1..], b);
      Regroup([a[..at + 1]], Lines(a[at + 1..]), Lines(Rest(a) + b));
    }
  }

  lemma {:induction false} RestOfSum(a: seq<Byte>, b: seq<Byte>)
    ensures Rest(a + b) == Rest(Rest(a) + b)
    decreases |a|
  {
    var at := Break(a);
    BreakOfSum(a, b);
    if at < |a| {
      SumSlices(a, b, at + 1);
      RestOfSum(a[at + 1..], b);
    }
  }

  lemma SumSlices(a: seq<Byte>, b: seq<Byte>, at: nat)
    requires at <= |a|
    ensures (a + b)[..at] == a[..at] && (a + b)[at..] == a[at..] + b
  {
  }

  lemma {:induction false} RestHasNoBreak(s: seq<Byte>)
    ensures Break(Rest(s)) == |Rest(s)|
    decreases |s|
  {
    if Break(s) < |s| {
      RestHasNoBreak(s[Break(s) + 1..]);
    }
  }

  /** No line, complete or not, is longer than what may be pending. */
  predicate ShortLines(s: seq<Byte>) {
    (forall line | line in Lines(s) :: |line| - 1 <= MOST_PENDING) && |Rest(s)| <= MOST_PENDING
  }

  lemma RestIsShort(a: seq<Byte>, b: seq<Byte>)
    requires ShortLines(a + b)
    ensures |Rest(a)| <= MOST_PENDING
  {
    LinesOfSum(a, b);
    RestOfSum(a, b);
    var rest := Rest(a);
    RestHasNoBreak(a);
    BreakOfSum(rest, b);
    var at := Break(rest + b);
    if at < |rest + b| {
      assert Lines(rest + b)[0] == (rest + b)[..at + 1];
      assert Lines(rest + b)[0] in Lines(a + b);
    } else {
      assert Rest(rest + b) == rest + b;
    }
  }

  // ---------------------------------------------------------------------
  // Persisting
  // ---------------------------------------------------------------------

  /** Any way of turning a line into a record, or into nothing. */
  type Cleaning = seq<Byte> -> seq<Byte>

  function Cleaner(rules: Rules): Cleaning {
    (raw: seq<Byte>) => Sanitized(rules, raw)
  }

  function Kept(record: seq<Byte>): seq<seq<Byte>> {
    if record == [] then [] else [record]
  }

  /** The records of lines, without the lines that are not kept. */
  function Records(clean: Cleaning, lines: seq<seq<Byte>>): seq<seq<Byte>> {
    if lines == [] then []
    else
      var n := |lines| - 1;
      Records(clean, lines[..n]) + Kept(clean(lines[n]))
  }

  lemma {:induction false} RecordsOfSum(clean: Cleaning, a: seq<seq<Byte>>, b: seq<seq<Byte>>)
    ensures Records(clean, a + b) == Records(clean, a) + Records(clean, b)
  {
    if b == [] {
      assert a + b == a;
    } else {
      var n := |b| - 1;
      RecordsOfSum(clean, a, b[..n]);
      assert (a + b)[..|a| + n] == a + b[..n];
    }
  }

  datatype Relay = Relay(pending: seq<Byte>, records: seq<seq<Byte>>)

  function Flushed(clean: Cleaning, relay: Relay): Relay {
    Relay([], relay.records + (if relay.pending == [] then [] else Records(clean, [relay.pending])))
  }

  function Persisted(clean: Cleaning, relay: Relay, chunk: seq<Byte>, flush: bool): Relay {
    var s := relay.pending + chunk;
    var cut := Relay(Rest(s), relay.records + Records(clean, Lines(s)));
    if flush || |cut.pending| > MOST_PENDING then Flushed(clean, cut) else cut
  }

  function RelayAll(clean: Cleaning, chunks: seq<seq<Byte>>): Relay {
    if chunks == [] then Relay([], [])
    else Persisted(clean, RelayAll(clean, chunks[..|chunks| - 1]), chunks[|chunks| - 1], false)
  }

  /** Everything read up to a point, whatever the cuts. */
  lemma {:induction false} RelayedSoFar(clean: Cleaning, chunks: seq<seq<Byte>>, more: seq<Byte>)
    requires ShortLines(Concat(chunks) + more)
    ensures RelayAll(clean, chunks) == Relay(Rest(Concat(chunks)), Records(clean, Lines(Concat(chunks))))
  {
    if chunks == [] {
      assert Lines([]) == [];
    } else {
      var n := |chunks| - 1;
      var front, last := Concat(chunks[..n]), chunks[n];
      assert front + (last + more) == Concat(chunks) + more;
      RelayedSoFar(clean, chunks[..n], last + more);
      LinesOfSum(front, last);
      RestOfSum(front, last);
      RecordsOfSum(clean, Lines(front), Lines(Rest(front) + last));
      RestIsShort(Concat(chunks), more);
    }
  }

  /** What is persisted by the end of a stream without overlong lines is the
      cleaning of each of its lines, however it was cut into reads. */
  lemma CutsDoNotMatter(clean: Cleaning, chunks: seq<seq<Byte>>, other: seq<seq<Byte>>)
    requires ShortLines(Concat(chunks)) && Concat(chunks) == Concat(other)
    ensures var s := Concat(chunks);
      Persisted(clean, RelayAll(clean, chunks), [], true).records
      == Records(clean, Lines(s) + (if Rest(s) == [] then [] else [Rest(s)]))
    ensures Persisted(clean, RelayAll(clean, chunks), [], true) == Persisted(clean, RelayAll(clean, other), [], true)
  {
    var s := Concat(chunks);
    assert s + [] == s;
    RelayedSoFar(clean, chunks, []);
    RelayedSoFar(clean, other, []);
    assert Rest(s) + [] == Rest(s);
    RestHasNoBreak(s);
    assert Lines(Rest(s)) == [] && Rest(Rest(s)) == Rest(s);
    assert Records(clean, []) == [];
    RecordsOfSum(clean, Lines(s), if Rest(s) == [] then [] else [Rest(s)]);
  }

  // ---------------------------------------------------------------------
  // The stream updated in place
  // ---------------------------------------------------------------------

  class RelayStream {
    const rules: Rules
    /** Whether the log takes its k-th record. */
    const takes: nat -> bool
    var pending: seq<Byte>
    var records: seq<seq<Byte>>
    var offered: nat
    var enabled: bool

    ghost function Clean(): Cleaning {
      Cleaner(rules)
    }

    ghost predicate Valid()
      reads this
    {
      !enabled ==> pending == []
    }

    ghost function View(): Relay
      reads this
    {
      Relay(pending, records)
    }

    constructor (rules: Rules, takes: nat -> bool)
        ensures Valid() && enabled && View() == Relay([], []) && this.rules == rules
    {
      this.rules, this.takes := rules, takes;
      pending, records, offered, enabled := [], [], 0, true;
    }

    /** The log takes `count` records from number `from` on. */
    ghost predicate TakesAll(from: nat, count: nat) {
      forall k | from <= k < from + count :: takes(k)
    }

    /** Of the records in `goal` beyond `before`, offered from number `from` on,
        everything up to the first refusal is there; a refusal ends the relaying. */
    ghost predicate Relayed(before: seq<seq<Byte>>, from: nat, goal: seq<seq<Byte>>)
      reads this`records, this`offered, this`enabled
    {
      && before <= records <= goal
      && (enabled <==> records == goal)
      && TakesAll(from, |records| - |before|)
      && offered == from + |records| - |before| + (if enabled then 0 else 1)
      && (!enabled ==> !takes(offered - 1))
    }

    /** A record the log refuses ends the relaying to the log for good. */
    method Offer(record: seq<Byte>)
      requires enabled
      modifies this`records, this`offered, this`enabled
      ensures enabled == (record == [] || takes(old(offered)))
      ensures offered == old(offered) + |Kept(record)|
      ensures records == old(records) + (if enabled then Kept(record) else [])
    {
      if record == [] {
        return;
      }
      offered := offered + 1;
      if takes(offered - 1) {
        records := records + [record];
      } else {
        enabled := false;
      }
    }

    /** Cleans and offers the first line of `left`. */
    method PersistLine(ghost clean: Cleaning, left: seq<Byte>)
      returns (ghost kept: seq<seq<Byte>>, rest: seq<Byte>)
      requires enabled && clean == Clean() && Break(left) < |left|
      modifies this`records, this`offered, this`enabled
      ensures |rest| < |left| && Rest(left) == Rest(rest)
      ensures Records(clean, Lines(left)) == kept + Records(clean, Lines(rest))
      ensures Relayed(old(records), old(offered), old(records) + kept)
    {
      var at := Break(left);
      ghost var raw := left[..at + 1];
      rest := left[at + 1..];
      kept := Kept(clean(raw));
      FirstRecord(clean, raw, Lines(rest));
      var line := StripLeadingResets(left[..at + 1]);
      var record := SanitizeLine(rules, line);
      StrippedIsSanitizedAlike(rules, raw);
      ghost var before, from := records, offered;
      Offer(record);
      OneOffered(before, from, record);
    }

    lemma OneOffered(before: seq<seq<Byte>>, from: nat, record: seq<Byte>)
      requires enabled == (record == [] || takes(from)) && offered == from + |Kept(record)|
      requires records == before + (if enabled then Kept(record) else [])
      ensures Relayed(before, from, before + Kept(record))
    {
    }

    /** What is relayed in two parts is relayed. */
    lemma RelayedOn(
      before: seq<seq<Byte>>, from: nat, middle: seq<seq<Byte>>, later: nat, part: seq<seq<Byte>>, goal: seq<seq<Byte>>)
      requires before <= middle && later == from + |middle| - |before| && TakesAll(from, |middle| - |before|)
      requires Relayed(middle, later, part) && part <= goal && (enabled ==> part == goal)
      ensures Relayed(before, from, goal)
    {
    }

    /** What is still to be relayed follows what has been. */
    ghost predicate Relaying(before: seq<seq<Byte>>, from: nat, rest: seq<seq<Byte>>, goal: seq<seq<Byte>>)
      reads this`records, this`offered, this`enabled
    {
      if enabled then
        && before <= records && records + rest == goal
        && TakesAll(from, |records| - |before|) && offered == from + |records| - |before|
      else Relayed(before, from, goal)
    }

    lemma OneMoreLine(
      before: seq<seq<Byte>>, from: nat, middle: seq<seq<Byte>>, later: nat,
      kept: seq<seq<Byte>>, rest: seq<seq<Byte>>, goal: seq<seq<Byte>>)
      requires before <= middle && later == from + |middle| - |before| && TakesAll(from, |middle| - |before|)
      requires Relayed(middle, later, middle + kept) && middle + (kept + rest) == goal
      ensures Relaying(before, from, rest, goal)
    {
      Regroup(middle, kept, rest);
    }

    lemma NothingLeft(before: seq<seq<Byte>>, from: nat, goal: seq<seq<Byte>>)
      requires enabled && Relaying(before, from, [], goal)
      ensures Relayed(before, from, goal)
    {
      assert records + [] == records;
    }

    method DrainLines(ghost clean: Cleaning)
      requires enabled && clean == Clean()
      modifies this`pending, this`records, this`offered, this`enabled
      ensures Relayed(old(records), old(offered), old(records) + Records(clean, Lines(old(pending))))
      ensures pending == if enabled then Rest(old(pending)) else []
    {
      ghost var rest := Records(clean, Lines(pending));
      ghost var goal := records + rest;
      var left := pending;
      while enabled && Break(left) < |left|
        invariant pending == old(pending) && Rest(left) == Rest(pending)
        invariant rest == Records(clean, Lines(left)) && Relaying(old(records), old(offered), rest, goal)
        decreases |left|
      {
        ghost var kept, middle, later := [], records, offered;
        kept, left := PersistLine(clean, left);
        rest := Records(clean, Lines(left));
        OneMoreLine(old(records), old(offered), middle, later, kept, rest, goal);
      }
      if enabled {
        LastBreak(left);
        assert Records(clean, []) == [];
        NothingLeft(old(records), old(offered), goal);
        pending := left;
      } else {
        pending := [];
      }
    }

    method FlushPending()
      requires enabled
      modifies this`pending, this`records, this`offered, this`enabled
      ensures Relayed(old(records), old(offered), Flushed(Clean(), old(View())).records)
      ensures pending == []
    {
      if pending != [] {
        LastRecord(Clean(), pending);
        var record := SanitizeLine(rules, pending);
        Offer(record);
        pending := [];
      } else {
        assert records + [] == records;
      }
    }

    /** A stream that is still enabled relays exactly what it should, up to the
        first record that the log refuses. */
    method Persist(chunk: seq<Byte>, flush: bool)
      requires Valid()
      modifies this`pending, this`records, this`offered, this`enabled
      ensures Valid()
      ensures !old(enabled) ==> !enabled && View() == old(View()) && offered == old(offered)
      ensures old(enabled) ==>
        var goal := Persisted(Clean(), old(View()), chunk, flush);
        && Relayed(old(records), old(offered), goal.records)
        && pending == (if enabled then goal.pending else [])
        && enabled == TakesAll(old(offered), |goal.records| - |old(records)|)
    {
      if !enabled {
        return;
      }
      pending := pending + chunk;
      ghost var first := records + Records(Clean(), Lines(pending));
      ghost var goal := Persisted(Clean(), old(View()), chunk, flush);
      assert first <= goal.records;
      DrainLines(Clean());
      ghost var middle, later := records, offered;
      if enabled && (flush || |pending| > MOST_PENDING) {
        FlushPending();
        RelayedOn(old(records), old(offered), middle, later, goal.records, goal.records);
      }
      RefusalShows(old(records), old(offered), goal.records);
    }

    lemma RefusalShows(before: seq<seq<Byte>>, from: nat, goal: seq<seq<Byte>>)
      requires Relayed(before, from, goal)
      ensures enabled == TakesAll(from, |goal| - |before|)
    {
    }
  }

  lemma FirstRecord(clean: Cleaning, raw: seq<Byte>, more: seq<seq<Byte>>)
    ensures Records(clean, [raw] + more) == Kept(clean(raw)) + Records(clean, more)
  {
    RecordsOfSum(clean, [raw], more);
    LastRecord(clean, raw);
  }

  lemma Regroup(a: seq<seq<Byte>>, b: seq<seq<Byte>>, c: seq<seq<Byte>>)
    ensures (a + b) + c == a + (b + c)
    ensures a <= a + b <= a + (b + c)
  {
    assert (a + b) + c == a + (b + c);
  }

  lemma LastBreak(s: seq<Byte>)
    requires Break(s) == |s|
    ensures Lines(s) == [] && Rest(s) == s
  {
  }

  lemma LastRecord(clean: Cleaning, pending: seq<Byte>)
    ensures Records(clean, [pending]) == Kept(clean(pending))
  {
    assert [pending][..0] == [];
    assert Records(clean, []) == [];
  }
}
