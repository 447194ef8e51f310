/** Writing the session ZIP, from a directory to the finished file. */
module ZipWriter {
  import opened Bytes
  import opened ControlTypes
  import opened Crc
  import opened Zip

  // ---------------------------------------------------------------------
  // The order of names
  // ---------------------------------------------------------------------

  /** The byte-wise order of strings. */
  predicate Before(a: seq<Byte>, b: seq<Byte>) {
    b != [] && (a == [] || a[0] < b[0] || (a[0] == b[0] && Before(a[1..], b[1..])))
  }

  lemma {:induction false} BeforeIsTransitive(a: seq<Byte>, b: seq<Byte>, c: seq<Byte>)
    requires Before(a, b) && Before(b, c)
    ensures Before(a, c)
  {
    if a != [] && a[0] == b[0] && b[0] == c[0] {
      BeforeIsTransitive(a[1..], b[1..], c[1..]);
    }
  }

  lemma {:induction false} BeforeIsTotal(a: seq<Byte>, b: seq<Byte>)
    ensures a == b || Before(a, b) || Before(b, a)
    ensures !Before(a, a)
  {
    if a != [] {
      BeforeIsTotal(a[1..], if b == [] then [] else b[1..]);
      assert a == [a[0]] + a[1..];
      if b != [] {
        assert b == [b[0]] + b[1..];
      }
    }
  }

  predicate Ascending(es: seq<File>) {
    forall i, j | 0 <= i < j < |es| :: Before(es[i].name, es[j].name)
  }

  /** The files of a directory in the order of their names. */
  predicate Lists(es: seq<File>, directory: map<seq<Byte>, seq<Byte>>) {
    && Ascending(es)
    && (forall i | 0 <= i < |es| :: es[i].name in directory && directory[es[i].name] == es[i].content)
    && (forall name | name in directory :: File(name, directory[name]) in es)
  }

  function Insert(sorted: seq<File>, e: File): seq<File> {
    if sorted == [] || Before(sorted[|sorted| - 1].name, e.name) then sorted + [e]
    else Insert(sorted[..|sorted| - 1], e) + [sorted[|sorted| - 1]]
  }

  lemma {:induction false} InsertSorts(sorted: seq<File>, e: File)
    requires Ascending(sorted) && forall i | 0 <= i < |sorted| :: sorted[i].name != e.name
    ensures Ascending(Insert(sorted, e)) && |Insert(sorted, e)| == |sorted| + 1
    ensures forall f :: f in Insert(sorted, e) <==> f in sorted || f == e
  {
    if sorted != [] {
      var n := |sorted| - 1;
      var last := sorted[n];
      assert sorted == sorted[..n] + [last];
      BeforeIsTotal(last.name, e.name);
      if Before(last.name, e.name) {
        forall i | 0 <= i < n ensures Before(sorted[i].name, e.name) {
          BeforeIsTransitive(sorted[i].name, last.name, e.name);
        }
      } else {
        InsertSorts(sorted[..n], e);
        var inner := Insert(sorted[..n], e);
        forall i | 0 <= i < |inner| ensures Before(inner[i].name, last.name) {
          assert inner[i] in sorted[..n] || inner[i] == e;
        }
      }
    }
  }

  /** There is only one order. */
  lemma {:induction false} OneListing(es: seq<File>, fs: seq<File>, directory: map<seq<Byte>, seq<Byte>>)
    requires Lists(es, directory) && Lists(fs, directory)
    ensures es == fs
    decreases |es|
  {
    if es == [] || fs == [] {
      NothingListed(es, fs, directory);
      NothingListed(fs, es, directory);
    } else {
      SameFirst(es, fs, directory);
      TailLists(es, directory);
      TailLists(fs, directory);
      OneListing(es[1..], fs[1..], directory - {es[0].name});
      assert es == [es[0]] + es[1..] && fs == [fs[0]] + fs[1..];
    }
  }

  lemma NothingListed(es: seq<File>, fs: seq<File>, directory: map<seq<Byte>, seq<Byte>>)
    requires Lists(es, directory) && Lists(fs, directory)
    ensures es == [] ==> fs == []
  {
    if fs != [] {
      assert File(fs[0].name, directory[fs[0].name]) in es;
    }
  }

  lemma SameFirst(es: seq<File>, fs: seq<File>, directory: map<seq<Byte>, seq<Byte>>)
    requires Lists(es, directory) && Lists(fs, directory) && es != [] && fs != []
    ensures es[0] == fs[0]
  {
    var a, b := es[0].name, fs[0].name;
    FirstIsLeast(es, fs, directory);
    FirstIsLeast(fs, es, directory);
    if a != b {
      BeforeIsTransitive(a, b, a);
      BeforeIsTotal(a, a);
      assert false;
    }
  }

  lemma FirstIsLeast(es: seq<File>, fs: seq<File>, directory: map<seq<Byte>, seq<Byte>>)
    requires Lists(es, directory) && Lists(fs, directory) && es != [] && fs != []
    ensures es[0].name == fs[0].name || Before(es[0].name, fs[0].name)
  {
    var name := fs[0].name;
    assert File(name, directory[name]) in es;
  }

  lemma TailLists(es: seq<File>, directory: map<seq<Byte>, seq<Byte>>)
    requires Lists(es, directory) && es != []
    ensures Lists(es[1..], directory - {es[0].name})
  {
    var rest := directory - {es[0].name};
    forall i | 0 <= i < |es| - 1
      ensures es[1..][i].name in rest && rest[es[1..][i].name] == es[1..][i].content
    {
      assert Before(es[0].name, es[i + 1].name);
      BeforeIsTotal(es[0].name, es[0].name);
    }
    forall name | name in rest ensures File(name, rest[name]) in es[1..] {
      var f := File(name, directory[name]);
      assert f in es;
      var i :| 0 <= i < |es| && es[i] == f;
      assert i != 0 && es[1..][i - 1] == f;
    }
  }

  // ---------------------------------------------------------------------
  // Writing
  // ---------------------------------------------------------------------

  method Put(value: nat, count: nat) returns (bytes: seq<Byte>)
    ensures bytes == LittleEndian(value, count)
  {
    bytes := [];
    var rest := value;
    for i := 0 to count
      invariant bytes + LittleEndian(rest, count - i) == LittleEndian(value, count)
    {
      assert bytes + [rest % 256] + LittleEndian(rest / 256, count - i - 1)
          == bytes + LittleEndian(rest, count - i);
      bytes := bytes + [rest % 256];
      rest := rest / 256;
    }
    assert bytes + [] == bytes;
  }

  method PutAll(fields: seq<Field>) returns (bytes: seq<Byte>)
    ensures bytes == Encode(fields, 0)
  {
    bytes := [];
    for i := 0 to |fields|
      invariant bytes + Encode(fields, i) == Encode(fields, 0)
    {
      var number := Put(fields[i].value, fields[i].width);
      assert bytes + number + Encode(fields, i + 1) == bytes + Encode(fields, i);
      bytes := bytes + number;
    }
    assert bytes + [] == bytes;
  }

  datatype Entry = Entry(file: File, size: nat, crc: nat, offset: nat)

  /** What the two writing passes know of a file. */
  predicate Measured(sum: Digest, e: Entry, file: File) {
    e.file == file && e.size == U32(|file.content|) && e.crc == sum(file.content)
  }

  /** An entry whose local header stands where its offset says. */
  predicate Placed(sum: Digest, e: Entry, files: seq<File>, i: nat)
    requires i < |files|
  {
    Measured(sum, e, files[i]) && e.offset == U32(Offset(Locals(sum, files), i))
  }

  method WriteLocals(ghost sum: Digest, es: seq<Entry>, ghost files: seq<File>)
    returns (output: seq<Byte>, placed: seq<Entry>)
    requires |es| == |files| && forall i | 0 <= i < |es| :: Measured(sum, es[i], files[i])
    ensures output == Concat(Locals(sum, files))
    ensures |placed| == |files| && forall i | 0 <= i < |files| :: Placed(sum, placed[i], files, i)
  {
    output, placed := [], [];
    ghost var locals := Locals(sum, files);
    for i := 0 to |es|
      invariant output == Concat(locals[..i]) && |placed| == i
      invariant forall k | 0 <= k < i :: Placed(sum, placed[k], files, k)
    {
      var e := es[i];
      placed := placed + [e.(offset := U32(|output|))];
      var piece := WriteLocal(sum, e, files[i]);
      ConcatNext(locals, i);
      output := output + piece;
    }
    assert locals[..|es|] == locals;
  }

  method WriteLocal(ghost sum: Digest, e: Entry, ghost file: File) returns (piece: seq<Byte>)
    requires Measured(sum, e, file)
    ensures piece == Local(sum, file)
  {
    var header := PutAll(LocalFields(e.crc, e.size, U32(|e.file.name|)));
    piece := header + e.file.name + e.file.content;
  }

  method WriteCentrals(ghost sum: Digest, es: seq<Entry>, ghost files: seq<File>) returns (output: seq<Byte>)
    requires |es| == |files| && forall i | 0 <= i < |files| :: Placed(sum, es[i], files, i)
    ensures output == Concat(Centrals(sum, files))
  {
    output := [];
    ghost var locals, centrals := Locals(sum, files), Centrals(sum, files);
    for i := 0 to |es|
      invariant output == Concat(centrals[..i])
    {
      var e := es[i];
      var header := PutAll(CentralFields(e.crc, e.size, U32(|e.file.name|), e.offset));
      CentralPiece(sum, files, i, header);
      ConcatNext(centrals, i);
      output := output + (header + e.file.name);
    }
    assert centrals[..|es|] == centrals;
  }

  lemma CentralPiece(sum: Digest, files: seq<File>, i: nat, header: seq<Byte>)
    requires i < |files|
    requires var offset := U32(Offset(Locals(sum, files), i));
      header == Encode(CentralFields(
        sum(files[i].content), U32(|files[i].content|), U32(|files[i].name|), offset), 0)
    ensures header + files[i].name == Centrals(sum, files)[i]
  {
  }

  method WriteArchive(ghost sum: Digest, es: seq<Entry>, ghost files: seq<File>) returns (output: seq<Byte>)
    requires |es| == |files| && forall i | 0 <= i < |es| :: Measured(sum, es[i], files[i])
    ensures output == Archive(sum, files)
  {
    var locals, placed := WriteLocals(sum, es, files);
    var central := U32(|locals|);
    var centrals := WriteCentrals(sum, placed, files);
    var end := PutAll(EndFields(U32(|es|), U32(|centrals|), central));
    output := locals + centrals + end;
  }

  /** Part of a directory has been looked at and sorted. */
  ghost predicate ListsBut(sorted: seq<File>, directory: map<seq<Byte>, seq<Byte>>, todo: set<seq<Byte>>) {
    && Ascending(sorted)
    && (forall f | f in sorted :: f.name in directory && f.name !in todo && directory[f.name] == f.content)
    && (forall name | name in directory && name !in todo ::
          File(name, directory[name]) in sorted && |directory[name]| <= FILE_LIMIT)
  }

  lemma OneMoreSorted(
    sorted: seq<File>, directory: map<seq<Byte>, seq<Byte>>, todo: set<seq<Byte>>, name: seq<Byte>)
    requires ListsBut(sorted, directory, todo) && name in todo && name in directory
    requires |directory[name]| <= FILE_LIMIT
    ensures ListsBut(Insert(sorted, File(name, directory[name])), directory, todo - {name})
    ensures |Insert(sorted, File(name, directory[name]))| == |sorted| + 1
  {
    assert forall i | 0 <= i < |sorted| :: sorted[i] in sorted;
    InsertSorts(sorted, File(name, directory[name]));
  }

  /** Measures every file, gives up on one that is too large, and sorts by name. */
  method Collect(directory: map<seq<Byte>, seq<Byte>>) returns (files: Option<seq<File>>)
    ensures files.None? <==> exists name :: name in directory && |directory[name]| > FILE_LIMIT
    ensures files.Some? ==> Lists(files.value, directory) && |files.value| == |directory|
  {
    var sorted: seq<File> := [];
    var todo := directory.Keys;
    while todo != {}
      invariant todo <= directory.Keys && |sorted| + |todo| == |directory.Keys|
      invariant ListsBut(sorted, directory, todo)
      decreases |todo|
    {
      var name :| name in todo;
      if !(|directory[name]| <= FILE_LIMIT) {
        return None;
      }
      OneMoreSorted(sorted, directory, todo, name);
      sorted := InsertInPlace(sorted, File(name, directory[name]));
      todo := todo - {name};
    }
    assert forall i | 0 <= i < |sorted| :: sorted[i] in sorted;
    files := Some(sorted);
  }

  method Measure(ghost sum: Digest, files: seq<File>) returns (entries: seq<Entry>)
    requires sum == Crc32
    ensures |entries| == |files| && forall i | 0 <= i < |files| :: Measured(sum, entries[i], files[i])
  {
    var table := MakeTable();
    entries := [];
    for i := 0 to |files|
      invariant |entries| == i && forall k | 0 <= k < i :: Measured(sum, entries[k], files[k])
    {
      var e := MeasureOne(sum, files[i], table);
      entries := entries + [e];
    }
  }

  method MeasureOne(ghost sum: Digest, file: File, table: seq<Word>) returns (e: Entry)
    requires sum == Crc32 && IsTable(table)
    ensures Measured(sum, e, file)
  {
    var crc := Checksum(file.content, table);
    e := Entry(file, U32(|file.content|), crc, 0);
  }

  method InsertInPlace(sorted: seq<File>, e: File) returns (result: seq<File>)
    ensures result == Insert(sorted, e)
  {
    var j := |sorted|;
    assert sorted[..j] == sorted && sorted[j..] == [];
    while j > 0 && !Before(sorted[j - 1].name, e.name)
      invariant 0 <= j <= |sorted|
      invariant Insert(sorted, e) == Insert(sorted[..j], e) + sorted[j..]
    {
      assert sorted[..j][..j - 1] == sorted[..j - 1];
      assert [sorted[j - 1]] + sorted[j..] == sorted[j - 1..];
      j := j - 1;
    }
    result := sorted[..j] + [e] + sorted[j..];
  }

  lemma ListedFilesFit(files: seq<File>, directory: map<seq<Byte>, seq<Byte>>)
    requires Lists(files, directory) && |files| <= MAX_FILES
    requires forall name | name in directory :: |name| < 0x1_0000 && |directory[name]| <= FILE_LIMIT
    ensures Fitting(files)
  {
  }

  /** A directory within the limits becomes an archive from which a reader gets
      back its files in the order of their names; any other is refused. */
  method WriteSessionZip(directory: map<seq<Byte>, seq<Byte>>)
    returns (output: Option<seq<Byte>>, ghost files: seq<File>)
    ensures output.None? <==>
      (exists name :: name in directory && |directory[name]| > FILE_LIMIT) || |directory| > MAX_FILES
    ensures output.Some? ==> Lists(files, directory) && output.value == Archive(Crc32, files)
    ensures output.Some? && (forall name | name in directory :: |name| < 0x1_0000) ==>
      ReadArchive(Crc32, output.value) == Some(files)
  {
    var found := Collect(directory);
    if found.None? || !(|found.value| <= MAX_FILES) {
      return None, [];
    }
    files := found.value;
    var entries := Measure(Crc32, found.value);
    var bytes := WriteArchive(Crc32, entries, files);
    output := Some(bytes);
    if forall name | name in directory :: |name| < 0x1_0000 {
      ListedFilesFit(files, directory);
      ArchiveRoundTrip(Crc32, files);
    }
  }
}
