/** The launcher's rotating log: an active file and numbered backups, renamed in
    place by system calls that may fail. A file that does not exist is modelled
    as an empty one. */
module RotatingLog {
  import opened Bytes

  /** The active file and the backups, the newest first. */
  datatype Files = Files(active: seq<Byte>, backups: seq<seq<Byte>>)

  /** The backups from the oldest to the newest. */
  function Joined(backups: seq<seq<Byte>>): seq<Byte> {
    if backups == [] then [] else Joined(backups[1..]) + backups[0]
  }

  /** Everything still on disk, in the order in which it was written. */
  function Retained(files: Files): seq<Byte> {
    Joined(files.backups) + files.active
  }

  predicate EndsWith(whole: seq<Byte>, end: seq<Byte>) {
    |end| <= |whole| && whole[|whole| - |end|..] == end
  }

  // ---------------------------------------------------------------------
  // What a call does when nothing fails
  // ---------------------------------------------------------------------

  function Rotated(files: Files): Files {
    Files([], if files.backups == [] then [] else [files.active] + files.backups[..|files.backups| - 1])
  }

  /** Bytes go to the active file until it is full, then to the next one. */
  function Filled(files: Files, value: seq<Byte>, most: nat): Files
    requires 0 < most
    decreases |value|, |files.active|
  {
    if value == [] then files
    else if |files.active| >= most then Filled(Rotated(files), value, most)
    else
      var available := most - |files.active|;
      var count := if available < |value| then available else |value|;
      Filled(files.(active := files.active + value[..count]), value[count..], most)
  }

  /** A record that fits a file but not what is left of this one starts the next. */
  function Appended(files: Files, value: seq<Byte>, most: nat): Files
    requires 0 < most
  {
    if |value| <= most && |files.active| + |value| > most then Filled(Rotated(files), value, most)
    else Filled(files, value, most)
  }

  lemma {:induction false} JoinedWithout(backups: seq<seq<Byte>>)
    requires backups != []
    ensures Joined(backups) == backups[|backups| - 1] + Joined(backups[..|backups| - 1])
  {
    var n := |backups| - 1;
    if n == 0 {
      assert backups[1..] == [] && backups[..0] == [];
    } else {
      JoinedWithout(backups[1..]);
      assert backups[1..][..n - 1] == backups[..n][1..];
      assert backups[..n][0] == backups[0];
    }
  }

  /** A rotation forgets the oldest backup and nothing else. */
  lemma RotatedKeepsEnd(files: Files)
    ensures EndsWith(Retained(files), Retained(Rotated(files)))
  {
    if files.backups != [] {
      var kept := files.backups[..|files.backups| - 1];
      JoinedWithout(files.backups);
      assert ([files.active] + kept)[1..] == kept;
    }
  }

  lemma EndsWithTransitive(a: seq<Byte>, b: seq<Byte>, c: seq<Byte>)
    requires EndsWith(a, b) && EndsWith(b, c)
    ensures EndsWith(a, c)
  {
  }

  lemma EndsWithMore(a: seq<Byte>, b: seq<Byte>, more: seq<Byte>)
    requires EndsWith(a, b)
    ensures EndsWith(a + more, b + more)
  {
    var start := |a| - |b|;
    assert (a + more)[start..] == a[start..] + more;
  }

  lemma {:induction false} FilledKeepsEnd(files: Files, value: seq<Byte>, most: nat)
    requires 0 < most
    ensures EndsWith(Retained(files) + value, Retained(Filled(files, value, most)))
    decreases |value|, |files.active|
  {
    if value == [] {
      assert Retained(files) + value == Retained(files);
    } else if |files.active| >= most {
      FilledKeepsEnd(Rotated(files), value, most);
      RotatedThenKeepsEnd(files, value, Retained(Filled(files, value, most)));
    } else {
      var available := most - |files.active|;
      var count := if available < |value| then available else |value|;
      var next := files.(active := files.active + value[..count]);
      FilledKeepsEnd(next, value[count..], most);
      SplitWrite(Joined(files.backups), files.active, value, count);
    }
  }

  lemma SplitWrite(before: seq<Byte>, active: seq<Byte>, value: seq<Byte>, count: nat)
    requires count <= |value|
    ensures before + (active + value[..count]) + value[count..] == before + active + value
  {
    assert value == value[..count] + value[count..];
  }

  lemma RotatedThenKeepsEnd(files: Files, value: seq<Byte>, last: seq<Byte>)
    requires EndsWith(Retained(Rotated(files)) + value, last)
    ensures EndsWith(Retained(files) + value, last)
  {
    RotatedKeepsEnd(files);
    EndsWithMore(Retained(files), Retained(Rotated(files)), value);
    EndsWithTransitive(Retained(files) + value, Retained(Rotated(files)) + value, last);
  }

  /** What is on disk is always the end of what was written. */
  lemma AppendedKeepsEnd(files: Files, value: seq<Byte>, most: nat)
    requires 0 < most
    ensures EndsWith(Retained(files) + value, Retained(Appended(files, value, most)))
  {
    if |value| <= most && |files.active| + |value| > most {
      FilledKeepsEnd(Rotated(files), value, most);
      RotatedThenKeepsEnd(files, value, Retained(Appended(files, value, most)));
    } else {
      FilledKeepsEnd(files, value, most);
    }
  }

  /** A record that fits a file is never split over two. */
  lemma SmallRecordStaysWhole(files: Files, value: seq<Byte>, most: nat)
    requires 0 < |value| <= most
    ensures Appended(files, value, most)
      == if |files.active| + |value| <= most then files.(active := files.active + value)
         else Rotated(files).(active := value)
  {
    var start := if |files.active| + |value| <= most then files else Rotated(files);
    assert value[..|value|] == value && value[|value|..] == [];
    assert [] + value == value;
    assert Filled(start.(active := start.active + value), [], most) == start.(active := start.active + value);
  }

  predicate Within(files: Files, most: nat, known: set<seq<Byte>>) {
    && |files.active| <= most
    && (forall i | 0 <= i < |files.backups| :: |files.backups[i]| <= most || files.backups[i] in known)
  }

  lemma RotatedIsWithin(files: Files, most: nat, known: set<seq<Byte>>)
    requires Within(files, most, known)
    ensures Within(Rotated(files), most, known)
  {
  }

  /** No file that is filled outgrows the limit; only the files in `known`, which
      were there before, may be larger. */
  lemma {:induction false} FilledIsWithin(files: Files, value: seq<Byte>, most: nat, known: set<seq<Byte>>)
    requires 0 < most && Within(files, most, known)
    ensures Within(Filled(files, value, most), most, known)
    decreases |value|, |files.active|
  {
    if value == [] {
    } else if |files.active| >= most {
      RotatedIsWithin(files, most, known);
      FilledIsWithin(Rotated(files), value, most, known);
    } else {
      var available := most - |files.active|;
      var count := if available < |value| then available else |value|;
      FilledIsWithin(files.(active := files.active + value[..count]), value[count..], most, known);
    }
  }

  // ---------------------------------------------------------------------
  // Every sequence of records
  // ---------------------------------------------------------------------

  function AppendedAll(files: Files, values: seq<seq<Byte>>, most: nat): Files
    requires 0 < most
  {
    if values == [] then files
    else Appended(AppendedAll(files, values[..|values| - 1], most), values[|values| - 1], most)
  }

  lemma AppendedIsWithin(files: Files, value: seq<Byte>, most: nat, known: set<seq<Byte>>)
    requires 0 < most && Within(files, most, known)
    ensures Within(Appended(files, value, most), most, known)
  {
    RotatedIsWithin(files, most, known);
    FilledIsWithin(files, value, most, known);
    FilledIsWithin(Rotated(files), value, most, known);
  }

  lemma {:induction false} FilesStayWithin(
    files: Files, values: seq<seq<Byte>>, most: nat, known: set<seq<Byte>>)
    requires 0 < most && Within(files, most, known)
    ensures Within(AppendedAll(files, values, most), most, known)
  {
    if values != [] {
      var n := |values| - 1;
      FilesStayWithin(files, values[..n], most, known);
      AppendedIsWithin(AppendedAll(files, values[..n], most), values[n], most, known);
    }
  }

  /** After any number of appends the disk holds the end of the whole stream. */
  lemma {:induction false} StreamIsKept(files: Files, values: seq<seq<Byte>>, most: nat)
    requires 0 < most
    ensures EndsWith(Retained(files) + Concat(values), Retained(AppendedAll(files, values, most)))
  {
    if values == [] {
      assert Retained(files) + [] == Retained(files);
    } else {
      var n := |values| - 1;
      var before := AppendedAll(files, values[..n], most);
      StreamIsKept(files, values[..n], most);
      AppendedKeepsEnd(before, values[n], most);
      EndsThroughout(
        Retained(files), Concat(values[..n]), values[n], Retained(before), Retained(AppendedAll(files, values, most)));
    }
  }

  lemma EndsThroughout(a: seq<Byte>, b: seq<Byte>, c: seq<Byte>, mid: seq<Byte>, last: seq<Byte>)
    requires EndsWith(a + b, mid) && EndsWith(mid + c, last)
    ensures EndsWith(a + (b + c), last)
  {
    EndsWithMore(a + b, mid, c);
    EndsWithTransitive(a + b + c, mid + c, last);
    assert a + b + c == a + (b + c);
  }

  // ---------------------------------------------------------------------
  // The object, with system calls that may fail
  // ---------------------------------------------------------------------

  lemma {:induction false} MoveKeepsJoined(backups: seq<seq<Byte>>, i: nat)
    requires i + 1 < |backups| && backups[i + 1] == []
    ensures Joined(backups[i + 1 := backups[i]][i := []]) == Joined(backups)
  {
    var moved := backups[i + 1 := backups[i]][i := []];
    if i == 0 {
      assert moved[1..][1..] == backups[1..][1..];
      assert Joined(moved) == Joined(moved[1..][1..]) + moved[1] + [];
      assert Joined(backups) == Joined(backups[1..][1..]) + [] + backups[0];
    } else {
      MoveKeepsJoined(backups[1..], i - 1);
      assert moved[1..] == backups[1..][i := backups[1..][i - 1]][i - 1 := []];
    }
  }

  lemma DropOldestKeepsEnd(backups: seq<seq<Byte>>)
    requires backups != []
    ensures EndsWith(Joined(backups), Joined(backups[|backups| - 1 := []]))
  {
    var n := |backups| - 1;
    var dropped := backups[n := []];
    JoinedWithout(backups);
    JoinedWithout(dropped);
    assert dropped[..n] == backups[..n];
    assert [] + Joined(backups[..n]) == Joined(backups[..n]);
  }

  class RotatingRuntimeLog {
    const most: nat
    /** Whether the k-th system call works, and how much a failing write leaves. */
    const works: nat -> bool
    const leaves: nat -> nat
    var calls: nat
    var active: seq<Byte>
    var backups: seq<seq<Byte>>
    var isOpen: bool
    var bytes: nat
    /** Everything that reached a file, starting with what was on disk at first. */
    ghost var stream: seq<Byte>
    ghost var known: set<seq<Byte>>

    ghost function View(): Files
      reads this
    {
      Files(active, backups)
    }

    /** The disk holds the end of the stream. */
    ghost predicate Kept()
      reads this
    {
      0 < most && EndsWith(stream, Retained(View()))
    }

    ghost predicate Valid()
      reads this
    {
      && Kept() && (isOpen ==> bytes == |active|)
      && Within(View(), most, known)
    }

    constructor (
      active: seq<Byte>, backups: seq<seq<Byte>>, most: nat, works: nat -> bool, leaves: nat -> nat)
      requires 0 < most
      ensures View() == Files(active, backups) && this.most == most && Kept() && !isOpen
      ensures stream == Retained(View())
      ensures AllSized()
    {
      this.active, this.backups, this.most := active, backups, most;
      this.works, this.leaves := works, leaves;
      calls, isOpen, bytes := 0, false, 0;
      stream := Joined(backups) + active;
      known := {active} + set b | b in backups;
    }

    /** The calls from number `from` up to, but without, number `to` all work. */
    ghost predicate AllWork(from: nat, to: nat) {
      forall k | from <= k < to :: works(k)
    }

    method Try() returns (ok: bool)
      modifies this`calls
      ensures calls == old(calls) + 1 && ok == works(old(calls))
    {
      ok := works(calls);
      calls := calls + 1;
    }

    method OpenActive(truncate: bool) returns (ok: bool)
      modifies this`calls, this`active, this`isOpen, this`bytes
      ensures old(calls) <= calls && (ok <==> AllWork(old(calls), calls))
      ensures isOpen == ok && (ok ==> bytes == |active|)
      ensures active == old(active) || (truncate && active == [])
      ensures ok && truncate ==> active == []
    {
      isOpen := false;
      ok := Try();
      if !ok {
        return;
      }
      if truncate {
        active := [];
      }
      ok := Try();
      if !ok {
        return;
      }
      isOpen := true;
      bytes := if truncate then 0 else |active|;
    }

    /** A failed step leaves the files where they are and opens the active one again. */
    method Fail()
      modifies this`calls, this`active, this`isOpen, this`bytes
      ensures old(calls) <= calls && (isOpen <==> AllWork(old(calls), calls))
      ensures active == old(active) && (isOpen ==> bytes == |active|)
    {
      var reopened := OpenActive(false);
    }

    ghost predicate Sized(b: seq<Byte>)
      reads this
    {
      |b| <= most || b in known
    }

    ghost predicate AllSized()
      reads this
    {
      Sized(active) && forall i | 0 <= i < |backups| :: Sized(backups[i])
    }

    method DropOldest() returns (ok: bool)
      requires Kept() && backups != [] && AllSized()
      modifies this`calls, this`backups
      ensures old(calls) <= calls && (ok <==> AllWork(old(calls), calls))
      ensures Kept() && AllSized()
      ensures backups == if ok then old(backups)[|old(backups)| - 1 := []] else old(backups)
    {
      ok := Try();
      if ok {
        ghost var was := backups;
        DropOldestKeepsEnd(backups);
        backups := backups[|backups| - 1 := []];
        EndsWithMore(Joined(was), Joined(backups), active);
        EndsWithTransitive(stream, Joined(was) + active, Joined(backups) + active);
      }
    }

    /** Renames every backup but the oldest, from the older to the newer, so that
        the first place becomes free. */
    method ShiftBackups() returns (ok: bool)
      requires Kept() && backups != [] && backups[|backups| - 1] == [] && AllSized()
      modifies this`calls, this`backups
      ensures old(calls) <= calls && (ok <==> AllWork(old(calls), calls))
      ensures Kept() && AllSized() && |backups| == |old(backups)|
      ensures ok ==> backups == [[]] + old(backups)[..|backups| - 1]
    {
      ghost var was := backups;
      var rotations := |backups|;
      var index := rotations - 1;
      while index >= 1
        invariant 0 <= index < rotations == |backups|
        invariant old(calls) <= calls && AllWork(old(calls), calls)
        invariant Kept() && AllSized()
        invariant backups[index] == []
        invariant forall j | 0 <= j < index :: backups[j] == was[j]
        invariant forall j | index < j < rotations :: backups[j] == was[j - 1]
      {
        ok := Try();
        if !ok {
          return;
        }
        MoveKeepsJoined(backups, index - 1);
        backups := backups[index := backups[index - 1]][index - 1 := []];
        index := index - 1;
      }
      ok := true;
    }

    /** Renames the active file to the free first backup. */
    method RetireActive() returns (ok: bool)
      requires Kept() && backups != [] && backups[0] == [] && AllSized()
      modifies this`calls, this`active, this`backups
      ensures old(calls) <= calls && (ok <==> AllWork(old(calls), calls))
      ensures Kept() && AllSized()
      ensures if ok then active == [] && backups == old(backups)[0 := old(active)]
        else active == old(active) && backups == old(backups)
    {
      ok := Try();
      if ok {
        ghost var gap := backups;
        backups := backups[0 := active];
        active := [];
        assert backups[1..] == gap[1..];
        assert Joined(gap) + old(active) == Joined(backups) + active;
      }
    }

    method Rotate() returns (ok: bool)
      requires Kept() && AllSized()
      modifies this`calls, this`active, this`backups, this`isOpen, this`bytes
      ensures old(calls) <= calls && (ok <==> AllWork(old(calls), calls))
      ensures Kept() && AllSized() && |backups| == |old(backups)|
      ensures isOpen ==> bytes == |active|
      ensures ok ==> isOpen && View() == Rotated(old(View()))
      ensures active == old(active) || active == []
    {
      isOpen := false;
      ghost var was := backups;
      if |backups| > 0 {
        ok := DropOldest();
        if ok {
          ok := ShiftBackups();
        }
        if ok {
          ok := RetireActive();
        }
        assert ok ==> backups == [old(active)] + was[..|was| - 1];
      } else {
        ok := Try();
        if ok {
          active := [];
          assert Joined(backups) + active == [];
        }
      }
      if ok {
        ok := OpenActive(true);
      } else {
        Fail();
      }
    }

    /** Opening rotates a file that is already full. */
    method Open() returns (ok: bool)
      requires Kept() && AllSized()
      modifies this`calls, this`active, this`backups, this`isOpen, this`bytes
      ensures old(calls) <= calls && (ok <==> AllWork(old(calls), calls))
      ensures Kept() && |backups| == |old(backups)|
      ensures ok ==> Valid() && isOpen
      ensures ok ==> View() == if |old(active)| >= most then Rotated(old(View())) else old(View())
    {
      ok := OpenActive(false);
      if ok && bytes >= most {
        ok := Rotate();
      }
    }

    /** A record that would not fit what is left of the active file starts a new one. */
    method StartRecord(value: seq<Byte>) returns (ok: bool)
      requires Valid() && isOpen
      modifies this`calls, this`active, this`backups, this`isOpen, this`bytes
      ensures old(calls) <= calls && (ok <==> AllWork(old(calls), calls))
      ensures Valid()
      ensures ok ==> isOpen && Filled(View(), value, most) == Appended(old(View()), value, most)
    {
      if |value| <= most && bytes + |value| > most {
        ok := Rotate();
      } else {
        ok := true;
      }
    }

    method MakeRoom(ghost rest: seq<Byte>) returns (ok: bool)
      requires Valid() && isOpen && rest != []
      modifies this`calls, this`active, this`backups, this`isOpen, this`bytes
      ensures old(calls) <= calls && (ok <==> AllWork(old(calls), calls))
      ensures Valid()
      ensures ok ==> isOpen && bytes < most && Filled(View(), rest, most) == Filled(old(View()), rest, most)
    {
      if bytes >= most {
        ok := Rotate();
      } else {
        ok := true;
      }
    }

    method Append(value: seq<Byte>) returns (ok: bool)
      requires Valid()
      modifies this`calls, this`active, this`backups, this`isOpen, this`bytes, this`stream
      ensures old(calls) <= calls && (ok <==> old(isOpen) && AllWork(old(calls), calls))
      ensures Valid()
      ensures ok ==> isOpen && View() == Appended(old(View()), value, most)
      ensures ok ==> stream == old(stream) + value
      ensures !ok ==> exists sent: nat :: sent <= |value| && stream == old(stream) + value[..sent]
    {
      assert stream == old(stream) + value[..0];
      if !isOpen {
        return false;
      }
      ok := StartRecord(value);
      if !ok {
        return;
      }
      var sent := 0;
      ghost var goal := Filled(View(), value, most);
      assert value[0..] == value;
      while sent < |value|
        invariant Valid() && isOpen
        invariant old(calls) <= calls && AllWork(old(calls), calls)
        invariant 0 <= sent <= |value| && stream == old(stream) + value[..sent]
        invariant Filled(View(), value[sent..], most) == goal
        decreases |value| - sent
      {
        ghost var before := sent;
        sent, ok := WriteOn(value, sent, goal);
        assert value[..before] + value[before..sent] == value[..sent];
        if !ok {
          return;
        }
      }
      assert value[..|value|] == value && value[|value|..] == [];
      return true;
    }

    /** One turn of the loop: a full file is rotated first. */
    method WriteOn(value: seq<Byte>, from: nat, ghost goal: Files) returns (sent: nat, ok: bool)
      requires Valid() && isOpen && from < |value|
      requires Filled(View(), value[from..], most) == goal
      modifies this`calls, this`active, this`backups, this`isOpen, this`bytes, this`stream
      ensures old(calls) <= calls && (ok <==> AllWork(old(calls), calls))
      ensures Valid() && from <= sent <= |value| && (ok ==> from < sent && isOpen)
      ensures ok ==> Filled(View(), value[sent..], most) == goal
      ensures stream == old(stream) + value[from..sent]
    {
      sent := from;
      ok := MakeRoom(value[from..]);
      if ok {
        sent, ok := WriteSome(value, from, goal);
      }
    }

    /** Writes as much of the rest as the active file has room for. */
    method WriteSome(value: seq<Byte>, from: nat, ghost goal: Files) returns (sent: nat, ok: bool)
      requires Valid() && isOpen && bytes < most && from < |value|
      requires Filled(View(), value[from..], most) == goal
      modifies this`calls, this`active, this`isOpen, this`bytes, this`stream
      ensures calls == old(calls) + 1 && ok == works(old(calls))
      ensures Valid() && from <= sent <= |value| && (ok ==> from < sent && isOpen)
      ensures ok ==> Filled(View(), value[sent..], most) == goal
      ensures stream == old(stream) + value[from..sent]
    {
      var rest := value[from..];
      var available := most - bytes;
      var count := if available < |rest| then available else |rest|;
      ok := Try();
      var written := if ok then count else if leaves(calls) < count then leaves(calls) else count;
      active := active + rest[..written];
      sent := from + written;
      stream := stream + value[from..sent];
      assert rest[..written] == value[from..sent];
      WriteKeepsEnd(old(stream), backups, old(active), rest[..written]);
      if !ok {
        isOpen := false;
        return;
      }
      bytes := bytes + count;
      assert rest[count..] == value[sent..];
    }
  }

  lemma WriteKeepsEnd(stream: seq<Byte>, backups: seq<seq<Byte>>, active: seq<Byte>, more: seq<Byte>)
    requires EndsWith(stream, Joined(backups) + active)
    ensures EndsWith(stream + more, Joined(backups) + (active + more))
  {
    EndsWithMore(stream, Joined(backups) + active, more);
    assert Joined(backups) + active + more == Joined(backups) + (active + more);
  }
}
