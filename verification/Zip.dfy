/** The session ZIP: headers written number by number, and a reader that follows
    sections 4.3.7, 4.3.12 and 4.3.16 of the PKWARE APPNOTE and recovers exactly
    what was written. */
module Zip {
  import opened Bytes
  import opened ControlTypes
  import opened Crc

  const MAX_FILES: int := 32

  /** A regular file under the directory, named by its relative path. */
  datatype File = File(name: seq<Byte>, content: seq<Byte>)

  /** The layout does not depend on which 32-bit checksum is used. */
  type Digest = seq<Byte> -> Number32

  /** A conversion to a 32-bit unsigned number. */
  function U32(value: nat): nat {
    value % TWO_TO_THE_32
  }

  lemma SameIn32(value: nat)
    requires value < TWO_TO_THE_32
    ensures U32(value) == value
  {
  }

  // ---------------------------------------------------------------------
  // Records
  // ---------------------------------------------------------------------

  const LOCAL_SIGNATURE: nat := 0x04034b50
  const CENTRAL_SIGNATURE: nat := 0x02014b50
  const END_SIGNATURE: nat := 0x06054b50

  function LocalFields(crc: nat, size: nat, nameLength: nat): seq<Field> {
    [Field(LOCAL_SIGNATURE, 4), Field(20, 2), Field(0x800, 2), Field(0, 2), Field(0, 2), Field(0x21, 2),
     Field(crc, 4), Field(size, 4), Field(size, 4), Field(nameLength, 2), Field(0, 2)]
  }

  function CentralFields(crc: nat, size: nat, nameLength: nat, offset: nat): seq<Field> {
    [Field(CENTRAL_SIGNATURE, 4), Field(20, 2), Field(20, 2), Field(0x800, 2), Field(0, 2), Field(0, 2),
     Field(0x21, 2), Field(crc, 4), Field(size, 4), Field(size, 4), Field(nameLength, 2), Field(0, 2),
     Field(0, 2), Field(0, 2), Field(0, 2), Field(0, 4), Field(offset, 4)]
  }

  function EndFields(count: nat, size: nat, offset: nat): seq<Field> {
    [Field(END_SIGNATURE, 4), Field(0, 2), Field(0, 2), Field(count, 2), Field(count, 2), Field(size, 4),
     Field(offset, 4), Field(0, 2)]
  }

  const LOCAL_WIDTHS: seq<nat> := [4, 2, 2, 2, 2, 2, 4, 4, 4, 2, 2]
  const CENTRAL_WIDTHS: seq<nat> := [4, 2, 2, 2, 2, 2, 2, 4, 4, 4, 2, 2, 2, 2, 2, 4, 4]
  const END_WIDTHS: seq<nat> := [4, 2, 2, 2, 2, 4, 4, 2]

  function Local(sum: Digest, e: File): seq<Byte> {
    Encode(LocalFields(sum(e.content), U32(|e.content|), U32(|e.name|)), 0) + e.name + e.content
  }

  function Central(sum: Digest, e: File, offset: nat): seq<Byte> {
    Encode(CentralFields(sum(e.content), U32(|e.content|), U32(|e.name|), U32(offset)), 0) + e.name
  }

  function Locals(sum: Digest, es: seq<File>): seq<seq<Byte>> {
    seq(|es|, i requires 0 <= i < |es| => Local(sum, es[i]))
  }

  function Centrals(sum: Digest, es: seq<File>): seq<seq<Byte>> {
    seq(|es|, i requires 0 <= i < |es| => Central(sum, es[i], Offset(Locals(sum, es), i)))
  }

  /** Local entries, central directory and end record. */
  function Archive(sum: Digest, es: seq<File>): seq<Byte> {
    var locals, centrals := Concat(Locals(sum, es)), Concat(Centrals(sum, es));
    locals + centrals + Encode(EndFields(U32(|es|), U32(|centrals|), U32(|locals|)), 0)
  }

  // ---------------------------------------------------------------------
  // The reader
  // ---------------------------------------------------------------------

  /** The numbers of a local header that a reader needs. */
  datatype LocalHeader = LocalHeader(
    signature: nat, compression: nat, crc: nat, packed: nat, size: nat, nameLength: nat, extraLength: nat)

  function LocalAt(bytes: seq<Byte>, at: nat): LocalHeader
    requires at + 30 <= |bytes|
  {
    LocalHeader(
      NumberAt(bytes, at, 4), NumberAt(bytes, at + 8, 2), NumberAt(bytes, at + 14, 4), NumberAt(bytes, at + 18, 4),
      NumberAt(bytes, at + 22, 4), NumberAt(bytes, at + 26, 2), NumberAt(bytes, at + 28, 2))
  }

  datatype CentralHeader = CentralHeader(
    signature: nat, compression: nat, crc: nat, packed: nat, size: nat,
    nameLength: nat, extraLength: nat, commentLength: nat, offset: nat)

  function CentralAt(bytes: seq<Byte>, at: nat): CentralHeader
    requires at + 46 <= |bytes|
  {
    CentralHeader(
      NumberAt(bytes, at, 4), NumberAt(bytes, at + 10, 2), NumberAt(bytes, at + 16, 4), NumberAt(bytes, at + 20, 4),
      NumberAt(bytes, at + 24, 4), NumberAt(bytes, at + 28, 2), NumberAt(bytes, at + 30, 2),
      NumberAt(bytes, at + 32, 2), NumberAt(bytes, at + 42, 4))
  }

  datatype EndRecord = EndRecord(
    signature: nat, disk: nat, firstDisk: nat, here: nat, count: nat, size: nat, offset: nat, commentLength: nat)

  function EndAt(bytes: seq<Byte>, at: nat): EndRecord
    requires at + 22 <= |bytes|
  {
    EndRecord(
      NumberAt(bytes, at, 4), NumberAt(bytes, at + 4, 2), NumberAt(bytes, at + 6, 2), NumberAt(bytes, at + 8, 2),
      NumberAt(bytes, at + 10, 2), NumberAt(bytes, at + 12, 4), NumberAt(bytes, at + 16, 4),
      NumberAt(bytes, at + 20, 2))
  }

  /** The stored content of the local entry at `at`, checked against what the
      central directory says of it. */
  function ReadLocal(
    sum: Digest, bytes: seq<Byte>, at: nat, name: seq<Byte>, crc: nat, size: nat): Option<seq<Byte>>
  {
    if at + 30 > |bytes| then None
    else
      var h := LocalAt(bytes, at);
      var content := Slice(bytes, at + 30 + h.nameLength + h.extraLength, h.size);
      if h.signature != LOCAL_SIGNATURE || h.compression != 0 || h.crc != crc || h.packed != size || h.size != size
      then None
      else if Slice(bytes, at + 30, h.nameLength) != Some(name) || content.None? || sum(content.value) != crc
      then None
      else content
  }

  /** Files read so far and the place where reading goes on. */
  datatype Listing = Listing(files: seq<File>, next: nat) | Malformed

  /** One entry of the central directory with the content it points at. */
  function ReadEntry(sum: Digest, bytes: seq<Byte>, at: nat): Listing {
    if at + 46 > |bytes| then Malformed
    else
      var h := CentralAt(bytes, at);
      var name := Slice(bytes, at + 46, h.nameLength);
      if h.signature != CENTRAL_SIGNATURE || h.compression != 0 || h.packed != h.size || name.None? then Malformed
      else
        var content := ReadLocal(sum, bytes, h.offset, name.value, h.crc, h.size);
        if content.None? then Malformed
        else Listing(
          [File(name.value, content.value)], at + 46 + h.nameLength + h.extraLength + h.commentLength)
  }

  /** `count` entries of the central directory from `at`. */
  function ReadEntries(read: nat -> Listing, at: nat, count: nat): Listing
    decreases count
  {
    if count == 0 then Listing([], at)
    else
      var first := read(at);
      if first.Malformed? then Malformed
      else
        var rest := ReadEntries(read, first.next, count - 1);
        if rest.Malformed? then Malformed else Listing(first.files + rest.files, rest.next)
  }

  function EntryReader(sum: Digest, bytes: seq<Byte>): nat -> Listing {
    (place: nat) => ReadEntry(sum, bytes, place)
  }

  /** The end record closes the file, on one disk and without a comment, right
      after the directory it describes. */
  function ReadArchive(sum: Digest, bytes: seq<Byte>): Option<seq<File>> {
    if |bytes| < 22 then None
    else
      var at := |bytes| - 22;
      var h := EndAt(bytes, at);
      if h.signature != END_SIGNATURE || h.disk != 0 || h.firstDisk != 0 || h.here != h.count || h.commentLength != 0
      then None
      else
        var found := ReadEntries(EntryReader(sum, bytes), h.offset, h.count);
        if found.Malformed? || found.next != at || h.offset + h.size != at then None else Some(found.files)
  }

  // ---------------------------------------------------------------------
  // Headers, number by number
  // ---------------------------------------------------------------------

  lemma PowersOf256()
    ensures Pow256(2) == 0x1_0000 && Pow256(4) == TWO_TO_THE_32
  {
    assert Pow256(1) == 256;
    assert Pow256(3) == 0x100_0000;
  }

  lemma LocalStarts()
    ensures var w := LOCAL_WIDTHS;
      && Start(w, 0) == 0 && Start(w, 3) == 8 && Start(w, 6) == 14 && Start(w, 7) == 18 && Start(w, 8) == 22
      && Start(w, 9) == 26 && Start(w, 10) == 28 && Start(w, 11) == 30
  {
    var w := LOCAL_WIDTHS;
    assert Start(w, 1) == 4;
    assert Start(w, 2) == 6;
    assert Start(w, 3) == 8;
    assert Start(w, 4) == 10;
    assert Start(w, 5) == 12;
    assert Start(w, 6) == 14;
    assert Start(w, 7) == 18;
    assert Start(w, 8) == 22;
    assert Start(w, 9) == 26;
    assert Start(w, 10) == 28;
  }

  lemma CentralStarts()
    ensures var w := CENTRAL_WIDTHS;
      && Start(w, 0) == 0 && Start(w, 4) == 10 && Start(w, 7) == 16 && Start(w, 8) == 20 && Start(w, 9) == 24
      && Start(w, 10) == 28 && Start(w, 11) == 30 && Start(w, 12) == 32 && Start(w, 16) == 42 && Start(w, 17) == 46
  {
    var w := CENTRAL_WIDTHS;
    assert Start(w, 1) == 4;
    assert Start(w, 2) == 6;
    assert Start(w, 3) == 8;
    assert Start(w, 4) == 10;
    assert Start(w, 5) == 12;
    assert Start(w, 6) == 14;
    assert Start(w, 7) == 16;
    assert Start(w, 8) == 20;
    assert Start(w, 9) == 24;
    assert Start(w, 10) == 28;
    assert Start(w, 11) == 30;
    assert Start(w, 12) == 32;
    assert Start(w, 13) == 34;
    assert Start(w, 14) == 36;
    assert Start(w, 15) == 38;
    assert Start(w, 16) == 42;
  }

  lemma EndStarts()
    ensures var w := END_WIDTHS;
      && Start(w, 0) == 0 && Start(w, 1) == 4 && Start(w, 2) == 6 && Start(w, 3) == 8 && Start(w, 4) == 10
      && Start(w, 5) == 12 && Start(w, 6) == 16 && Start(w, 7) == 20 && Start(w, 8) == 22
  {
    var w := END_WIDTHS;
    assert Start(w, 1) == 4;
    assert Start(w, 2) == 6;
    assert Start(w, 3) == 8;
    assert Start(w, 4) == 10;
    assert Start(w, 5) == 12;
    assert Start(w, 6) == 16;
    assert Start(w, 7) == 20;
  }

  lemma {:induction false} TotalIsStart(widths: seq<nat>, i: nat)
    requires i <= |widths|
    ensures Start(widths, i) + Total(widths, i) == Start(widths, |widths|)
    decreases |widths| - i
  {
    if i < |widths| {
      TotalIsStart(widths, i + 1);
      assert Start(widths, i + 1) == Start(widths, i) + widths[i];
    }
  }

  predicate Word32(value: nat) {
    value < TWO_TO_THE_32
  }

  lemma LocalLayout(crc: nat, size: nat, nameLength: nat)
    requires Word32(crc) && Word32(size) && nameLength < 0x1_0000
    ensures Layout(LocalFields(crc, size, nameLength), LOCAL_WIDTHS)
  {
    PowersOf256();
  }

  lemma CentralLayout(crc: nat, size: nat, nameLength: nat, offset: nat)
    requires Word32(crc) && Word32(size) && nameLength < 0x1_0000 && Word32(offset)
    ensures Layout(CentralFields(crc, size, nameLength, offset), CENTRAL_WIDTHS)
  {
    PowersOf256();
  }

  lemma EndLayout(count: nat, size: nat, offset: nat)
    requires count < 0x1_0000 && Word32(size) && Word32(offset)
    ensures Layout(EndFields(count, size, offset), END_WIDTHS)
  {
    PowersOf256();
  }

  lemma LocalHeaderReads(bytes: seq<Byte>, at: nat, crc: nat, size: nat, nameLength: nat)
    requires Word32(crc) && Word32(size) && nameLength < 0x1_0000
    requires Stands(bytes, at, Encode(LocalFields(crc, size, nameLength), 0))
    ensures |Encode(LocalFields(crc, size, nameLength), 0)| == 30
    ensures LocalAt(bytes, at) == LocalHeader(LOCAL_SIGNATURE, 0, crc, size, size, nameLength, 0)
  {
    var fields := LocalFields(crc, size, nameLength);
    LocalLayout(crc, size, nameLength);
    EncodedLength(fields, LOCAL_WIDTHS, 0);
    TotalIsStart(LOCAL_WIDTHS, 0);
    LocalStarts();
    FieldsStand(fields, LOCAL_WIDTHS, bytes, at, 0);
  }

  lemma CentralHeaderReads(bytes: seq<Byte>, at: nat, crc: nat, size: nat, nameLength: nat, offset: nat)
    requires Word32(crc) && Word32(size) && nameLength < 0x1_0000 && Word32(offset)
    requires Stands(bytes, at, Encode(CentralFields(crc, size, nameLength, offset), 0))
    ensures |Encode(CentralFields(crc, size, nameLength, offset), 0)| == 46
    ensures CentralAt(bytes, at) == CentralHeader(CENTRAL_SIGNATURE, 0, crc, size, size, nameLength, 0, 0, offset)
  {
    var fields := CentralFields(crc, size, nameLength, offset);
    CentralLayout(crc, size, nameLength, offset);
    EncodedLength(fields, CENTRAL_WIDTHS, 0);
    TotalIsStart(CENTRAL_WIDTHS, 0);
    CentralStarts();
    FieldsStand(fields, CENTRAL_WIDTHS, bytes, at, 0);
  }

  lemma EndRecordReads(bytes: seq<Byte>, at: nat, count: nat, size: nat, offset: nat)
    requires count < 0x1_0000 && Word32(size) && Word32(offset)
    requires Stands(bytes, at, Encode(EndFields(count, size, offset), 0))
    ensures |Encode(EndFields(count, size, offset), 0)| == 22
    ensures EndAt(bytes, at) == EndRecord(END_SIGNATURE, 0, 0, count, count, size, offset, 0)
  {
    var fields := EndFields(count, size, offset);
    EndLayout(count, size, offset);
    EncodedLength(fields, END_WIDTHS, 0);
    TotalIsStart(END_WIDTHS, 0);
    EndStarts();
    FieldsStand(fields, END_WIDTHS, bytes, at, 0);
  }

  // ---------------------------------------------------------------------
  // No size or offset outgrows 32 bits
  // ---------------------------------------------------------------------

  predicate Small(e: File) {
    |e.content| <= FILE_LIMIT && |e.name| < 0x1_0000
  }

  /** What the writer accepts, given names that fit a 16-bit length. */
  predicate Fitting(es: seq<File>) {
    |es| <= MAX_FILES && forall i | 0 <= i < |es| :: Small(es[i])
  }

  lemma LocalLength(sum: Digest, e: File)
    requires Small(e)
    ensures |Local(sum, e)| == 30 + |e.name| + |e.content|
  {
    var crc, size, length := sum(e.content), U32(|e.content|), U32(|e.name|);
    LocalLayout(crc, size, length);
    EncodedLength(LocalFields(crc, size, length), LOCAL_WIDTHS, 0);
    TotalIsStart(LOCAL_WIDTHS, 0);
    LocalStarts();
  }

  lemma CentralLength(sum: Digest, e: File, offset: nat)
    requires Small(e)
    ensures |Central(sum, e, offset)| == 46 + |e.name|
  {
    var crc, size, length := sum(e.content), U32(|e.content|), U32(|e.name|);
    CentralLayout(crc, size, length, U32(offset));
    EncodedLength(CentralFields(crc, size, length, U32(offset)), CENTRAL_WIDTHS, 0);
    TotalIsStart(CENTRAL_WIDTHS, 0);
    CentralStarts();
  }

  lemma EndLength(count: nat, size: nat, offset: nat)
    requires count < 0x1_0000 && Word32(size) && Word32(offset)
    ensures |Encode(EndFields(count, size, offset), 0)| == 22
  {
    EndLayout(count, size, offset);
    EncodedLength(EndFields(count, size, offset), END_WIDTHS, 0);
    TotalIsStart(END_WIDTHS, 0);
    EndStarts();
  }

  const LOCAL_MOST: nat := FILE_LIMIT + 0x1_0000 + 30
  const CENTRAL_MOST: nat := 0x1_0000 + 46

  lemma Multiples(count: nat)
    requires count <= MAX_FILES
    ensures count * LOCAL_MOST + count * CENTRAL_MOST + 22 < TWO_TO_THE_32
  {
    assert count * LOCAL_MOST <= MAX_FILES * LOCAL_MOST;
    assert count * CENTRAL_MOST <= MAX_FILES * CENTRAL_MOST;
  }

  /** The limits on files leave the whole archive, and with it every stored size
      and offset, below 2^32: nothing the writer converts is changed. */
  lemma NothingOverflows(sum: Digest, es: seq<File>)
    requires Fitting(es)
    ensures |Concat(Locals(sum, es))| + |Concat(Centrals(sum, es))| + 22 < TWO_TO_THE_32
  {
    forall i | 0 <= i < |es| ensures |Locals(sum, es)[i]| <= LOCAL_MOST && |Centrals(sum, es)[i]| <= CENTRAL_MOST {
      LocalLength(sum, es[i]);
      CentralLength(sum, es[i], Offset(Locals(sum, es), i));
    }
    ConcatLength(Locals(sum, es), LOCAL_MOST);
    ConcatLength(Centrals(sum, es), CENTRAL_MOST);
    Multiples(|es|);
  }

  // ---------------------------------------------------------------------
  // What is written is read back
  // ---------------------------------------------------------------------

  lemma LocalParts(sum: Digest, bytes: seq<Byte>, at: nat, e: File)
    requires Small(e) && Stands(bytes, at, Local(sum, e))
    ensures at + 30 <= |bytes|
    ensures LocalAt(bytes, at)
      == LocalHeader(LOCAL_SIGNATURE, 0, sum(e.content), |e.content|, |e.content|, |e.name|, 0)
    ensures Stands(bytes, at + 30, e.name) && Stands(bytes, at + 30 + |e.name|, e.content)
  {
    var crc, size, length := sum(e.content), |e.content|, |e.name|;
    SameIn32(size);
    SameIn32(length);
    var header := Encode(LocalFields(crc, size, length), 0);
    PartsStand(bytes, at, header + e.name, e.content);
    PartsStand(bytes, at, header, e.name);
    LocalHeaderReads(bytes, at, crc, size, length);
  }

  lemma LocalReads(sum: Digest, bytes: seq<Byte>, at: nat, name: seq<Byte>, content: seq<Byte>)
    requires at + 30 <= |bytes|
    requires LocalAt(bytes, at)
      == LocalHeader(LOCAL_SIGNATURE, 0, sum(content), |content|, |content|, |name|, 0)
    requires Stands(bytes, at + 30, name) && Stands(bytes, at + 30 + |name|, content)
    ensures ReadLocal(sum, bytes, at, name, sum(content), |content|) == Some(content)
  {
    StandsSlice(bytes, at + 30, name);
    StandsSlice(bytes, at + 30 + |name|, content);
  }

  lemma CentralParts(sum: Digest, bytes: seq<Byte>, at: nat, e: File, offset: nat)
    requires Small(e) && Word32(offset) && Stands(bytes, at, Central(sum, e, offset))
    ensures at + 46 <= |bytes|
    ensures CentralAt(bytes, at) == CentralHeader(
      CENTRAL_SIGNATURE, 0, sum(e.content), |e.content|, |e.content|, |e.name|, 0, 0, offset)
    ensures Stands(bytes, at + 46, e.name)
  {
    var crc, size, length := sum(e.content), |e.content|, |e.name|;
    SameIn32(size);
    SameIn32(length);
    SameIn32(offset);
    var header := Encode(CentralFields(crc, size, length, offset), 0);
    PartsStand(bytes, at, header, e.name);
    CentralHeaderReads(bytes, at, crc, size, length, offset);
  }

  lemma CentralReads(sum: Digest, bytes: seq<Byte>, at: nat, e: File, offset: nat)
    requires at + 46 <= |bytes|
    requires CentralAt(bytes, at) == CentralHeader(
      CENTRAL_SIGNATURE, 0, sum(e.content), |e.content|, |e.content|, |e.name|, 0, 0, offset)
    requires Stands(bytes, at + 46, e.name)
    requires ReadLocal(sum, bytes, offset, e.name, sum(e.content), |e.content|) == Some(e.content)
    ensures ReadEntry(sum, bytes, at) == Listing([e], at + 46 + |e.name|)
  {
    StandsSlice(bytes, at + 46, e.name);
  }

  lemma EntryReads(sum: Digest, bytes: seq<Byte>, at: nat, e: File, offset: nat)
    requires Small(e) && Word32(offset)
    requires Stands(bytes, at, Central(sum, e, offset)) && Stands(bytes, offset, Local(sum, e))
    ensures ReadEntry(sum, bytes, at) == Listing([e], at + |Central(sum, e, offset)|)
  {
    LocalParts(sum, bytes, offset, e);
    LocalReads(sum, bytes, offset, e.name, e.content);
    CentralParts(sum, bytes, at, e, offset);
    CentralReads(sum, bytes, at, e, offset);
    CentralLength(sum, e, offset);
  }

  lemma OneMoreEntry(read: nat -> Listing, at: nat, count: nat, e: File, next: nat, rest: seq<File>, end: nat)
    requires read(at) == Listing([e], next) && ReadEntries(read, next, count) == Listing(rest, end)
    ensures ReadEntries(read, at, count + 1) == Listing([e] + rest, end)
  {
  }

  lemma FirstAndRest(es: seq<File>, i: nat)
    requires i < |es|
    ensures es[i..] == [es[i]] + es[i + 1..]
  {
  }

  /** The `k`th entry is read at its own place, and reading goes on at the next. */
  predicate EntryIsRead(read: nat -> Listing, from: nat, pieces: seq<seq<Byte>>, es: seq<File>, k: nat)
    requires k < |es| == |pieces|
  {
    read(from + Offset(pieces, k)) == Listing([es[k]], from + Offset(pieces, k + 1))
  }

  /** Entries that read one by one read in a row. */
  lemma {:induction false} EntriesRead(
    read: nat -> Listing, from: nat, pieces: seq<seq<Byte>>, es: seq<File>, i: nat)
    requires |pieces| == |es| && i <= |es|
    requires forall k | 0 <= k < |es| :: EntryIsRead(read, from, pieces, es, k)
    ensures ReadEntries(read, from + Offset(pieces, i), |es| - i)
      == Listing(es[i..], from + Offset(pieces, |es|))
    decreases |es| - i
  {
    if i == |es| {
      assert es[i..] == [];
    } else {
      assert EntryIsRead(read, from, pieces, es, i);
      EntriesRead(read, from, pieces, es, i + 1);
      OneMoreEntry(
        read, from + Offset(pieces, i), |es| - i - 1, es[i], from + Offset(pieces, i + 1), es[i + 1..],
        from + Offset(pieces, |es|));
      FirstAndRest(es, i);
    }
  }

  lemma AllEntriesRead(read: nat -> Listing, from: nat, pieces: seq<seq<Byte>>, es: seq<File>)
    requires |pieces| == |es|
    requires forall k | 0 <= k < |es| :: EntryIsRead(read, from, pieces, es, k)
    ensures ReadEntries(read, from, |es|) == Listing(es, from + |Concat(pieces)|)
  {
    EntriesRead(read, from, pieces, es, 0);
    assert pieces[..0] == [] && pieces[..|es|] == pieces && es[0..] == es;
  }

  type LocalRecord = File -> seq<Byte>
  type CentralRecord = (File, nat) -> seq<Byte>

  /** `read` finds every entry whose two records stand in `bytes`. */
  ghost predicate FindsEntries(local: LocalRecord, central: CentralRecord, bytes: seq<Byte>, read: nat -> Listing) {
    forall at: nat, e: File, offset: nat |
      Small(e) && Word32(offset) && Stands(bytes, at, central(e, offset)) && Stands(bytes, offset, local(e)) ::
      read(at) == Listing([e], at + |central(e, offset)|)
  }

  /** The records of `es`, in order. */
  ghost predicate AreRecords(
    local: LocalRecord, central: CentralRecord, es: seq<File>, locals: seq<seq<Byte>>, centrals: seq<seq<Byte>>)
  {
    && |locals| == |centrals| == |es|
    && (forall k | 0 <= k < |es| :: locals[k] == local(es[k]) && centrals[k] == central(es[k], Offset(locals, k)))
  }

  lemma DirectoryEntryReads(
    local: LocalRecord, central: CentralRecord, bytes: seq<Byte>, read: nat -> Listing, from: nat, es: seq<File>,
    locals: seq<seq<Byte>>, centrals: seq<seq<Byte>>, k: nat)
    requires k < |es| && Small(es[k]) && AreRecords(local, central, es, locals, centrals)
    requires |Concat(locals)| < TWO_TO_THE_32 && FindsEntries(local, central, bytes, read)
    requires Stands(bytes, 0, Concat(locals)) && Stands(bytes, from, Concat(centrals))
    ensures EntryIsRead(read, from, centrals, es, k)
  {
    PieceStands(bytes, 0, locals, k);
    PieceStands(bytes, from, centrals, k);
    OffsetAfter(centrals, k);
    assert Stands(bytes, Offset(locals, k), local(es[k]));
  }

  lemma DirectoryReads(
    local: LocalRecord, central: CentralRecord, bytes: seq<Byte>, read: nat -> Listing, from: nat, es: seq<File>,
    locals: seq<seq<Byte>>, centrals: seq<seq<Byte>>)
    requires Fitting(es) && AreRecords(local, central, es, locals, centrals)
    requires |Concat(locals)| < TWO_TO_THE_32 && FindsEntries(local, central, bytes, read)
    requires Stands(bytes, 0, Concat(locals)) && Stands(bytes, from, Concat(centrals))
    ensures ReadEntries(read, from, |es|) == Listing(es, from + |Concat(centrals)|)
  {
    forall k | 0 <= k < |es| ensures EntryIsRead(read, from, centrals, es, k) {
      DirectoryEntryReads(local, central, bytes, read, from, es, locals, centrals, k);
    }
    AllEntriesRead(read, from, centrals, es);
  }

  function LocalOf(sum: Digest): LocalRecord {
    (e: File) => Local(sum, e)
  }

  function CentralOf(sum: Digest): CentralRecord {
    (e: File, offset: nat) => Central(sum, e, offset)
  }

  lemma ReaderFindsEntries(sum: Digest, bytes: seq<Byte>)
    ensures FindsEntries(LocalOf(sum), CentralOf(sum), bytes, EntryReader(sum, bytes))
  {
    forall at: nat, e: File, offset: nat |
      Small(e) && Word32(offset) && Stands(bytes, at, CentralOf(sum)(e, offset))
      && Stands(bytes, offset, LocalOf(sum)(e))
      ensures EntryReader(sum, bytes)(at) == Listing([e], at + |CentralOf(sum)(e, offset)|)
    {
      EntryReads(sum, bytes, at, e, offset);
    }
  }

  lemma WholeStands(a: seq<Byte>, b: seq<Byte>, c: seq<Byte>)
    ensures Stands(a + b + c, 0, a) && Stands(a + b + c, |a|, b) && Stands(a + b + c, |a| + |b|, c)
  {
  }

  lemma ThreePartsStand(locals: seq<Byte>, centrals: seq<Byte>, count: nat)
    requires count < 0x1_0000 && Word32(|centrals|) && Word32(|locals|)
    ensures var bytes := locals + centrals + Encode(EndFields(count, |centrals|, |locals|), 0);
      && Stands(bytes, 0, locals) && Stands(bytes, |locals|, centrals)
      && |bytes| == |locals| + |centrals| + 22
      && EndAt(bytes, |bytes| - 22) == EndRecord(END_SIGNATURE, 0, 0, count, count, |centrals|, |locals|, 0)
  {
    var end := Encode(EndFields(count, |centrals|, |locals|), 0);
    WholeStands(locals, centrals, end);
    EndLength(count, |centrals|, |locals|);
    EndRecordReads(locals + centrals + end, |locals| + |centrals|, count, |centrals|, |locals|);
  }

  lemma ArchiveStands(sum: Digest, es: seq<File>)
    requires Fitting(es)
    ensures var bytes, locals, centrals := Archive(sum, es), Concat(Locals(sum, es)), Concat(Centrals(sum, es));
      && Stands(bytes, 0, locals) && Stands(bytes, |locals|, centrals)
      && |bytes| == |locals| + |centrals| + 22
      && EndAt(bytes, |bytes| - 22) == EndRecord(END_SIGNATURE, 0, 0, |es|, |es|, |centrals|, |locals|, 0)
  {
    var locals, centrals := Concat(Locals(sum, es)), Concat(Centrals(sum, es));
    NothingOverflows(sum, es);
    SameIn32(|es|);
    SameIn32(|centrals|);
    SameIn32(|locals|);
    ThreePartsStand(locals, centrals, |es|);
  }

  lemma RecordsOfFiles(sum: Digest, es: seq<File>)
    ensures AreRecords(LocalOf(sum), CentralOf(sum), es, Locals(sum, es), Centrals(sum, es))
  {
  }

  lemma EntriesOfArchive(sum: Digest, bytes: seq<Byte>, es: seq<File>)
    requires Fitting(es) && |Concat(Locals(sum, es))| < TWO_TO_THE_32
    requires Stands(bytes, 0, Concat(Locals(sum, es)))
    requires Stands(bytes, |Concat(Locals(sum, es))|, Concat(Centrals(sum, es)))
    ensures var locals, centrals := Concat(Locals(sum, es)), Concat(Centrals(sum, es));
      ReadEntries(EntryReader(sum, bytes), |locals|, |es|) == Listing(es, |locals| + |centrals|)
  {
    RecordsOfFiles(sum, es);
    ReaderFindsEntries(sum, bytes);
    DirectoryReads(
      LocalOf(sum), CentralOf(sum), bytes, EntryReader(sum, bytes), |Concat(Locals(sum, es))|, es,
      Locals(sum, es), Centrals(sum, es));
  }

  /** A reader that finds an end record and the directory it describes accepts. */
  lemma DirectoryIsAccepted(sum: Digest, bytes: seq<Byte>, es: seq<File>, size: nat, offset: nat)
    requires |bytes| == offset + size + 22
    requires EndAt(bytes, |bytes| - 22) == EndRecord(END_SIGNATURE, 0, 0, |es|, |es|, size, offset, 0)
    requires ReadEntries(EntryReader(sum, bytes), offset, |es|) == Listing(es, offset + size)
    ensures ReadArchive(sum, bytes) == Some(es)
  {
  }

  /** A reader recovers exactly the names and contents that were written, in
      order. */
  lemma ArchiveRoundTrip(sum: Digest, es: seq<File>)
    requires Fitting(es)
    ensures ReadArchive(sum, Archive(sum, es)) == Some(es)
  {
    var bytes, locals, centrals := Archive(sum, es), Concat(Locals(sum, es)), Concat(Centrals(sum, es));
    ArchiveStands(sum, es);
    NothingOverflows(sum, es);
    EntriesOfArchive(sum, bytes, es);
    DirectoryIsAccepted(sum, bytes, es, |centrals|, |locals|);
  }
}
