/** CRC-32 as a 32-bit register of single bits, lowest first: the bitwise division
    and the table the writer uses. */
module Crc {
  import opened Bytes

  function Repeat(bit: bool, count: nat): (bits: seq<bool>)
    ensures |bits| == count && forall i | 0 <= i < count :: bits[i] == bit
  {
    if count == 0 then [] else [bit] + Repeat(bit, count - 1)
  }

  const WORD_BITS: nat := 32
  const BYTE_BITS: nat := 8

  type Word = w: seq<bool> | |w| == WORD_BITS witness Repeat(false, WORD_BITS)

  function ToBits(value: nat, count: nat): (bits: seq<bool>)
    ensures |bits| == count
  {
    if count == 0 then [] else [value % 2 == 1] + ToBits(value / 2, count - 1)
  }

  function FromBits(bits: seq<bool>): nat {
    if bits == [] then 0 else (if bits[0] then 1 else 0) + 2 * FromBits(bits[1..])
  }

  function Xor(a: Word, b: Word): Word {
    seq(32, i requires 0 <= i < 32 => a[i] != b[i])
  }

  /** `v >> count`. */
  function ShiftRight(v: Word, count: nat): Word
    requires count <= 32
  {
    v[count..] + Repeat(false, count)
  }

  /** `v & 255`. */
  function LowByte(v: Word): Word {
    v[..8] + Repeat(false, 24)
  }

  const ZERO: Word := Repeat(false, WORD_BITS)
  const ONES: Word := Repeat(true, WORD_BITS)

  /** The reflected generator polynomial. */
  function Polynomial(): Word {
    ToBits(0xedb88320, WORD_BITS)
  }

  /** One bit of the division. */
  function Divide(v: Word): Word {
    Xor(ShiftRight(v, 1), if v[0] then Polynomial() else ZERO)
  }

  function DivideBy(v: Word, steps: nat): Word
    decreases steps
  {
    if steps == 0 then v else DivideBy(Divide(v), steps - 1)
  }

  // ---------------------------------------------------------------------
  // One lookup for eight bits
  // ---------------------------------------------------------------------

  lemma DivideIsLinear(x: Word, y: Word)
    ensures Divide(Xor(x, y)) == Xor(Divide(x), Divide(y))
  {
    var xy := Xor(x, y);
    assert xy[0] == (x[0] != y[0]);
    forall i | 0 <= i < 32 ensures Divide(xy)[i] == Xor(Divide(x), Divide(y))[i] {
      assert ShiftRight(xy, 1)[i] == (ShiftRight(x, 1)[i] != ShiftRight(y, 1)[i]);
    }
  }

  lemma {:induction false} DivideByIsLinear(x: Word, y: Word, steps: nat)
    ensures DivideBy(Xor(x, y), steps) == Xor(DivideBy(x, steps), DivideBy(y, steps))
    decreases steps
  {
    if steps > 0 {
      DivideIsLinear(x, y);
      DivideByIsLinear(Divide(x), Divide(y), steps - 1);
    }
  }

  /** Bits that never reach the bottom are only shifted. */
  lemma {:induction false} HighBitsShift(v: Word, steps: nat)
    requires steps <= 32 && forall i | 0 <= i < steps :: !v[i]
    ensures DivideBy(v, steps) == ShiftRight(v, steps)
    decreases steps
  {
    if steps == 0 {
      assert ShiftRight(v, 0) == v;
    } else {
      var next := Divide(v);
      assert next == ShiftRight(v, 1);
      HighBitsShift(next, steps - 1);
      assert ShiftRight(next, steps - 1) == ShiftRight(v, steps);
    }
  }

  /** Eight bitwise steps are a shift by a byte and one lookup of the low byte. */
  lemma EightStepsAreOneLookup(v: Word)
    ensures DivideBy(v, BYTE_BITS) == Xor(ShiftRight(v, 8), DivideBy(LowByte(v), BYTE_BITS))
  {
    var high: Word := Repeat(false, 8) + v[8..];
    assert v == Xor(high, LowByte(v));
    DivideByIsLinear(high, LowByte(v), BYTE_BITS);
    HighBitsShift(high, BYTE_BITS);
    assert ShiftRight(high, 8) == ShiftRight(v, 8);
  }

  lemma {:induction false} BitsReturn(bits: seq<bool>, more: nat)
    ensures ToBits(FromBits(bits), |bits| + more) == bits + Repeat(false, more)
  {
    if bits == [] {
      ZeroBits(more);
    } else {
      BitsReturn(bits[1..], more);
      assert FromBits(bits) / 2 == FromBits(bits[1..]);
    }
  }

  lemma {:induction false} ZeroBits(count: nat)
    ensures ToBits(0, count) == Repeat(false, count)
  {
    if count > 0 {
      ZeroBits(count - 1);
    }
  }

  lemma {:induction false} BitsAreSmall(bits: seq<bool>)
    ensures FromBits(bits) < Pow2(|bits|)
  {
    if bits != [] {
      BitsAreSmall(bits[1..]);
    }
  }

  function Pow2(count: nat): nat {
    if count == 0 then 1 else 2 * Pow2(count - 1)
  }

  // ---------------------------------------------------------------------
  // The checksum
  // ---------------------------------------------------------------------

  /** The register after `content`, divided one bit at a time. */
  function Register(content: seq<Byte>): Word {
    if content == [] then ONES
    else
      var n := |content| - 1;
      DivideBy(Xor(Register(content[..n]), ToBits(content[n], WORD_BITS)), BYTE_BITS)
  }

  function Crc32(content: seq<Byte>): Number32 {
    var bits := Xor(Register(content), ONES);
    WordFits(bits);
    FromBits(bits)
  }

  lemma WordFits(w: Word)
    ensures FromBits(w) < TWO_TO_THE_32
  {
    BitsAreSmall(w);
    assert Pow2(4) == 16;
    PowersMultiply(4, 4);
    PowersMultiply(8, 8);
    PowersMultiply(16, 16);
  }

  predicate IsTable(table: seq<Word>) {
    |table| == 256 && forall i | 0 <= i < 256 :: table[i] == DivideBy(ToBits(i, WORD_BITS), BYTE_BITS)
  }

  lemma OneStep(v: Word, steps: nat)
    requires steps > 0
    ensures DivideBy(v, steps)
      == DivideBy(Xor(ShiftRight(v, 1), if v[0] then Polynomial() else ZERO), steps - 1)
  {
  }

  method TableEntry(index: Word) returns (v: Word)
    ensures v == DivideBy(index, BYTE_BITS)
  {
    v := index;
    for step := 0 to BYTE_BITS
      invariant DivideBy(v, BYTE_BITS - step) == DivideBy(index, BYTE_BITS)
    {
      OneStep(v, BYTE_BITS - step);
      v := Xor(ShiftRight(v, 1), if v[0] then Polynomial() else ZERO);
    }
  }

  method MakeTable() returns (table: seq<Word>)
    ensures IsTable(table)
  {
    table := [];
    for i := 0 to 256
      invariant |table| == i && forall k | 0 <= k < i :: table[k] == DivideBy(ToBits(k, WORD_BITS), BYTE_BITS)
    {
      var v := TableEntry(ToBits(i, WORD_BITS));
      table := table + [v];
    }
  }

  /** The table-driven checksum is the bitwise one. */
  method Checksum(content: seq<Byte>, table: seq<Word>) returns (crc: nat)
    requires IsTable(table)
    ensures crc == Crc32(content)
  {
    var register := ONES;
    for i := 0 to |content|
      invariant register == Register(content[..i])
    {
      assert content[..i + 1][..i] == content[..i];
      var mixed := Xor(register, ToBits(content[i], WORD_BITS));
      LookupIsDivision(register, content[i], table);
      register := Xor(ShiftRight(register, 8), table[FromBits(LowByte(mixed))]);
    }
    assert content[..|content|] == content;
    crc := FromBits(Xor(register, ONES));
  }

  lemma ByteIsShiftedOut(register: Word, b: Byte)
    ensures ShiftRight(Xor(register, ToBits(b, WORD_BITS)), 8) == ShiftRight(register, 8)
  {
    ByteHasNoHighBits(b);
  }

  lemma LookupIsDivision(register: Word, b: Byte, table: seq<Word>)
    requires IsTable(table)
    ensures var mixed := Xor(register, ToBits(b, WORD_BITS));
      && FromBits(LowByte(mixed)) < 256
      && Xor(ShiftRight(register, 8), table[FromBits(LowByte(mixed))]) == DivideBy(mixed, BYTE_BITS)
  {
    var mixed := Xor(register, ToBits(b, WORD_BITS));
    LowByteIsSmall(mixed);
    EightStepsAreOneLookup(mixed);
    ByteIsShiftedOut(register, b);
  }

  lemma LowByteIsSmall(v: Word)
    ensures FromBits(LowByte(v)) < 256
    ensures ToBits(FromBits(LowByte(v)), WORD_BITS) == LowByte(v)
  {
    BitsReturn(LowByte(v), 0);
    PaddingAddsNothing(v[..8], 24);
    BitsAreSmall(v[..8]);
    assert Pow2(8) == 256 by {
      assert Pow2(4) == 16;
    }
  }

  lemma {:induction false} PaddingAddsNothing(bits: seq<bool>, more: nat)
    ensures FromBits(bits + Repeat(false, more)) == FromBits(bits)
  {
    if bits == [] {
      ZerosAreZero(more);
      assert bits + Repeat(false, more) == Repeat(false, more);
    } else {
      PaddingAddsNothing(bits[1..], more);
      assert (bits + Repeat(false, more))[1..] == bits[1..] + Repeat(false, more);
    }
  }

  lemma {:induction false} ZerosAreZero(count: nat)
    ensures FromBits(Repeat(false, count)) == 0
  {
    if count > 0 {
      ZerosAreZero(count - 1);
      assert Repeat(false, count)[1..] == Repeat(false, count - 1);
    }
  }

  lemma ByteHasNoHighBits(b: Byte)
    ensures forall i | 8 <= i < 32 :: !ToBits(b, WORD_BITS)[i]
  {
    HighBitsAreZero(b, 32, 8);
  }

  lemma {:induction false} HighBitsAreZero(value: nat, count: nat, low: nat)
    requires value < Pow2(low)
    ensures forall i | low <= i < count :: !ToBits(value, count)[i]
    decreases count
  {
    if low == 0 {
      ZeroBits(count);
    } else if count > 0 {
      HighBitsAreZero(value / 2, count - 1, low - 1);
    }
  }

  lemma {:induction false} PowersMultiply(a: nat, b: nat)
    ensures Pow2(a + b) == Pow2(a) * Pow2(b)
  {
    if a > 0 {
      PowersMultiply(a - 1, b);
    }
  }
}
