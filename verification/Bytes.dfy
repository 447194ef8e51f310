/** Bytes and little-endian numbers. */
module Bytes {
  import opened ControlTypes

  type Byte = x: int | 0 <= x < 256

  /** The most that one exported log file may hold. */
  const FILE_LIMIT: nat := 64 * 1024 * 1024

  const TWO_TO_THE_32: int := 0x1_0000_0000

  type Number32 = x: int | 0 <= x < TWO_TO_THE_32

  function Pow256(count: nat): nat {
    if count == 0 then 1 else 256 * Pow256(count - 1)
  }

  /** The low `count` bytes of a number, least significant first. */
  function LittleEndian(value: nat, count: nat): (bytes: seq<Byte>)
    ensures |bytes| == count
  {
    if count == 0 then [] else [value % 256] + LittleEndian(value / 256, count - 1)
  }

  /** The number that stands in the `count` bytes from `at`. */
  function NumberAt(bytes: seq<Byte>, at: nat, count: nat): nat
    requires at + count <= |bytes|
    decreases count
  {
    if count == 0 then 0 else bytes[at] + 256 * NumberAt(bytes, at + 1, count - 1)
  }

  /** `part` stands in `bytes` at `at`. */
  predicate Stands(bytes: seq<Byte>, at: nat, part: seq<Byte>) {
    at + |part| <= |bytes| && forall i | 0 <= i < |part| :: bytes[at + i] == part[i]
  }

  lemma PartsStand(bytes: seq<Byte>, at: nat, a: seq<Byte>, b: seq<Byte>)
    requires Stands(bytes, at, a + b)
    ensures Stands(bytes, at, a) && Stands(bytes, at + |a|, b)
  {
    forall i | 0 <= i < |a| ensures bytes[at + i] == a[i] {
      assert (a + b)[i] == a[i];
    }
    forall i | 0 <= i < |b| ensures bytes[at + |a| + i] == b[i] {
      assert (a + b)[|a| + i] == b[i];
    }
  }

  lemma {:induction false} LittleEndianReads(value: nat, bytes: seq<Byte>, at: nat, count: nat)
    requires value < Pow256(count) && Stands(bytes, at, LittleEndian(value, count))
    ensures NumberAt(bytes, at, count) == value
    decreases count
  {
    if count > 0 {
      PartsStand(bytes, at, [value % 256], LittleEndian(value / 256, count - 1));
      assert bytes[at + 0] == [value % 256][0];
      LittleEndianReads(value / 256, bytes, at + 1, count - 1);
    }
  }

  // ---------------------------------------------------------------------
  // Records of fixed-width fields
  // ---------------------------------------------------------------------

  datatype Field = Field(value: nat, width: nat)
  {
    predicate Fits() {
      value < Pow256(width)
    }
  }

  /** The fields from the `i`th on, one after the other. */
  function Encode(fields: seq<Field>, i: nat): seq<Byte>
    requires i <= |fields|
    decreases |fields| - i
  {
    if i == |fields| then [] else LittleEndian(fields[i].value, fields[i].width) + Encode(fields, i + 1)
  }

  /** How many bytes the fields from the `i`th on take. */
  function Total(widths: seq<nat>, i: nat): nat
    requires i <= |widths|
    decreases |widths| - i
  {
    if i == |widths| then 0 else widths[i] + Total(widths, i + 1)
  }

  /** Where the `i`th field starts. */
  function Start(widths: seq<nat>, i: nat): nat
    requires i <= |widths|
  {
    if i == 0 then 0 else Start(widths, i - 1) + widths[i - 1]
  }

  predicate Layout(fields: seq<Field>, widths: seq<nat>) {
    |fields| == |widths| && forall i | 0 <= i < |fields| :: fields[i].width == widths[i] && fields[i].Fits()
  }

  lemma {:induction false} EncodedLength(fields: seq<Field>, widths: seq<nat>, i: nat)
    requires Layout(fields, widths) && i <= |fields|
    ensures |Encode(fields, i)| == Total(widths, i)
    decreases |fields| - i
  {
    if i < |fields| {
      EncodedLength(fields, widths, i + 1);
    }
  }

  /** A record that stands anywhere in a file is read back field by field. */
  lemma {:induction false} FieldsStand(fields: seq<Field>, widths: seq<nat>, bytes: seq<Byte>, at: nat, i: nat)
    requires Layout(fields, widths) && i <= |fields|
    requires Stands(bytes, at + Start(widths, i), Encode(fields, i))
    ensures forall k | i <= k < |fields| ::
      && at + Start(widths, k) + widths[k] <= |bytes|
      && NumberAt(bytes, at + Start(widths, k), widths[k]) == fields[k].value
    decreases |fields| - i
  {
    if i < |fields| {
      var from := at + Start(widths, i);
      PartsStand(bytes, from, LittleEndian(fields[i].value, fields[i].width), Encode(fields, i + 1));
      LittleEndianReads(fields[i].value, bytes, from, widths[i]);
      assert Start(widths, i + 1) == Start(widths, i) + widths[i];
      FieldsStand(fields, widths, bytes, at, i + 1);
    }
  }

  // ---------------------------------------------------------------------
  // Pieces one after the other
  // ---------------------------------------------------------------------

  function Concat(pieces: seq<seq<Byte>>): seq<Byte> {
    if pieces == [] then [] else Concat(pieces[..|pieces| - 1]) + pieces[|pieces| - 1]
  }

  lemma ConcatNext(pieces: seq<seq<Byte>>, i: nat)
    requires i < |pieces|
    ensures Concat(pieces[..i + 1]) == Concat(pieces[..i]) + pieces[i]
  {
    assert pieces[..i + 1][..i] == pieces[..i];
  }

  /** Where the `i`th piece starts. */
  function Offset(pieces: seq<seq<Byte>>, i: nat): nat
    requires i <= |pieces|
  {
    |Concat(pieces[..i])|
  }

  lemma OffsetAfter(pieces: seq<seq<Byte>>, i: nat)
    requires i < |pieces|
    ensures Offset(pieces, i + 1) == Offset(pieces, i) + |pieces[i]|
    ensures pieces[..|pieces|] == pieces && Offset(pieces, |pieces|) == |Concat(pieces)|
  {
    assert pieces[..i + 1][..i] == pieces[..i];
    assert pieces[..|pieces|] == pieces;
  }

  lemma {:induction false} PieceStands(bytes: seq<Byte>, at: nat, pieces: seq<seq<Byte>>, i: nat)
    requires i < |pieces| && Stands(bytes, at, Concat(pieces))
    ensures Stands(bytes, at + Offset(pieces, i), pieces[i])
    ensures Offset(pieces, i) + |pieces[i]| <= |Concat(pieces)|
    decreases |pieces|
  {
    var n := |pieces| - 1;
    PartsStand(bytes, at, Concat(pieces[..n]), pieces[n]);
    if i < n {
      PieceStands(bytes, at, pieces[..n], i);
      assert pieces[..n][..i] == pieces[..i];
    }
  }

  lemma {:induction false} ConcatLength(pieces: seq<seq<Byte>>, most: nat)
    requires forall i | 0 <= i < |pieces| :: |pieces[i]| <= most
    ensures |Concat(pieces)| <= |pieces| * most
  {
    if pieces != [] {
      ConcatLength(pieces[..|pieces| - 1], most);
      assert |pieces| * most == (|pieces| - 1) * most + most;
    }
  }

  function Slice(bytes: seq<Byte>, at: nat, count: nat): Option<seq<Byte>> {
    if at + count <= |bytes| then Some(bytes[at..at + count]) else None
  }

  lemma StandsSlice(bytes: seq<Byte>, at: nat, part: seq<Byte>)
    requires Stands(bytes, at, part)
    ensures Slice(bytes, at, |part|) == Some(part)
  {
    assert bytes[at..at + |part|] == part;
  }
}
