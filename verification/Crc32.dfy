/** The CRC-32 of the ZIP writer: the 256-entry table, the byte-at-a-time loop over it, and
    the bit-at-a-time register (APPNOTE.TXT section 4.4.7) that the loop has to agree with.
    The word operations carry names so that proofs can use their laws without looking inside. */
module Crc32 {

  type Word = bv32
  type Bytes = seq<bv8>

  function Xor(a: Word, b: Word): Word { a ^ b }

  function Wide(b: bv8): Word { b as bv32 }

  function LowBit(v: Word): Word { v & 1 }

  function HighBits(v: Word): Word { v & 0xfffffffe }

  function Half(v: Word): Word { v >> 1 }

  function LowByte(v: Word): bv8 { (v & 0xff) as bv8 }

  function HighBytes(v: Word): Word { v & 0xffffff00 }

  function Down8(v: Word): Word { v >> 8 }

  /** One shift of the reflected register, polynomial 0xedb88320. */
  function Shift(v: Word): Word {
    if v & 1 != 0 then 0xedb88320 ^ (v >> 1) else v >> 1
  }

  function Shifts(v: Word, n: nat): Word
    decreases n
  {
    if n == 0 then v else Shifts(Shift(v), n - 1)
  }

  // ------------------------------------------------------------------ the reference

  /** The bit-serial register: add the next message bit to the low end, then shift once. */
  function FeedBits(v: Word, bits: Word, n: nat): Word
    decreases n
  {
    if n == 0 then v else FeedBits(Shift(Xor(v, LowBit(bits))), Half(bits), n - 1)
  }

  function Feed(v: Word, message: Bytes): Word {
    if message == [] then v
    else FeedBits(Feed(v, message[..|message| - 1]), Wide(message[|message| - 1]), 8)
  }

  const ALL_ONES: Word := 0xffffffff

  /** CRC-32 taken one message bit at a time, low bit of each byte first. */
  function BitSerial(message: Bytes): Word {
    Xor(Feed(ALL_ONES, message), ALL_ONES)
  }

  // ------------------------------------------------------------------ laws of the word operations

  lemma ShiftLinear(a: Word, b: Word)
    ensures Shift(Xor(a, b)) == Xor(Shift(a), Shift(b))
  {
    XorLaws(a, b, 0xedb88320);
    XorLaws(a >> 1, b >> 1, 0xedb88320);
  }

  lemma XorLaws(a: Word, b: Word, p: Word)
    ensures (a ^ b) >> 1 == (a >> 1) ^ (b >> 1)
    ensures (a ^ b) & 1 == (a & 1) ^ (b & 1)
    ensures (a & 1 == 0 || a & 1 == 1) && (b & 1 == 0 || b & 1 == 1)
    ensures p ^ (a ^ b) == (p ^ a) ^ b == a ^ (p ^ b)
    ensures a ^ b == (p ^ a) ^ (p ^ b)
  {
  }

  lemma XorAssociative(a: Word, b: Word, c: Word)
    ensures Xor(a, Xor(b, c)) == Xor(Xor(a, b), c)
  {
  }

  lemma XorZero(a: Word)
    ensures Xor(a, 0) == a
  {
  }

  lemma XorCancel(a: Word, b: Word, c: Word)
    requires Xor(a, c) == Xor(b, c) || Xor(c, a) == Xor(c, b)
    ensures a == b
  {
  }

  lemma LowBitApart(bits: Word)
    ensures bits == Xor(LowBit(bits), HighBits(bits))
    ensures Shift(HighBits(bits)) == Half(bits)
  {
  }

  lemma LowByteApart(v: Word)
    ensures v == Xor(Wide(LowByte(v)), HighBytes(v))
  {
  }

  lemma HighBytesKept(v: Word, b: bv8)
    ensures Down8(HighBytes(Xor(v, Wide(b)))) == Down8(v)
  {
  }

  lemma WideInjective(a: bv8, b: bv8)
    requires Wide(a) == Wide(b)
    ensures a == b
  {
  }

  /** The polynomial's top bit is set, so a shift can be undone. */
  lemma ShiftInjective(a: Word, b: Word)
    requires Shift(a) == Shift(b)
    ensures a == b
  {
    Undo(a);
    Undo(b);
  }

  function Unshift(v: Word): Word {
    if v & 0x80000000 != 0 then ((v ^ 0xedb88320) << 1) | 1 else v << 1
  }

  lemma Undo(a: Word)
    ensures Unshift(Shift(a)) == a
  {
  }

  // ------------------------------------------------------------------ many shifts

  lemma {:induction false} ShiftsLinear(a: Word, b: Word, n: nat)
    ensures Shifts(Xor(a, b), n) == Xor(Shifts(a, n), Shifts(b, n))
    decreases n
  {
    if n > 0 {
      ShiftLinear(a, b);
      ShiftsLinear(Shift(a), Shift(b), n - 1);
    }
  }

  lemma {:induction false} ShiftsInjective(a: Word, b: Word, n: nat)
    requires Shifts(a, n) == Shifts(b, n)
    ensures a == b
    decreases n
  {
    if n > 0 {
      ShiftsInjective(Shift(a), Shift(b), n - 1);
      ShiftInjective(a, b);
    }
  }

  function Halves(v: Word, n: nat): Word
    decreases n
  {
    if n == 0 then v else Halves(Half(v), n - 1)
  }

  lemma HalfLaws(v: Word)
    ensures Half(Half(Half(Half(Half(Half(Half(Half(v)))))))) == Down8(v)
    ensures LowBit(v) == 0 ==> Shift(v) == Half(v)
  {
  }

  lemma HighBytesAreClearBelow(v: Word)
    ensures var w := HighBytes(v);
            && LowBit(w) == LowBit(Half(w)) == LowBit(Half(Half(w))) == LowBit(Half(Half(Half(w)))) == 0
            && var h := Half(Half(Half(Half(w))));
            LowBit(h) == LowBit(Half(h)) == LowBit(Half(Half(h))) == LowBit(Half(Half(Half(h)))) == 0
  {
  }

  lemma EightHalves(v: Word)
    ensures Halves(v, 8) == Down8(v)
  {
    HalfLaws(v);
    var h := Half(v);
    var k := Half(Half(Half(h)));
    assert Halves(v, 8) == Halves(h, 7) == Halves(Half(h), 6) == Halves(Half(Half(h)), 5);
    assert Halves(Half(Half(h)), 5) == Halves(k, 4) == Halves(Half(k), 3) == Halves(Half(Half(k)), 2);
  }

  /** While the low bit is clear the polynomial is never added. */
  lemma {:induction false} ClearBitsOnlyMove(v: Word, n: nat)
    requires forall i :: 0 <= i < n ==> LowBit(Halves(v, i)) == 0
    ensures Shifts(v, n) == Halves(v, n)
    decreases n
  {
    if n > 0 {
      assert LowBit(Halves(v, 0)) == 0;
      HalfLaws(v);
      forall i | 0 <= i < n - 1 ensures LowBit(Halves(Half(v), i)) == 0 {
        assert Halves(v, i + 1) == Halves(Half(v), i);
      }
      ClearBitsOnlyMove(Half(v), n - 1);
    }
  }

  lemma ShiftsOfHighBytes(v: Word)
    ensures Shifts(HighBytes(v), 8) == Down8(HighBytes(v))
  {
    var w := HighBytes(v);
    HighBytesAreClearBelow(v);
    var h := Half(Half(Half(Half(w))));
    assert Halves(w, 0) == w && Halves(w, 1) == Halves(Half(w), 0) == Half(w);
    assert Halves(w, 2) == Halves(Half(w), 1) == Half(Half(w));
    assert Halves(w, 3) == Halves(Half(w), 2) == Halves(Half(Half(w)), 1) == Half(Half(Half(w)));
    assert Halves(h, 0) == h && Halves(h, 1) == Half(h) && Halves(h, 2) == Halves(Half(h), 1) == Half(Half(h));
    assert Halves(h, 3) == Halves(Half(h), 2) == Halves(Half(Half(h)), 1) == Half(Half(Half(h)));
    forall i | 0 <= i < 8 ensures LowBit(Halves(w, i)) == 0 {
      if i >= 4 { HalvesOfHalves(w, i - 4); }
    }
    ClearBitsOnlyMove(w, 8);
    EightHalves(w);
  }

  lemma HalvesOfHalves(w: Word, n: nat)
    ensures Halves(w, n + 4) == Halves(Half(Half(Half(Half(w)))), n)
  {
    assert Halves(w, n + 4) == Halves(Half(w), n + 3) == Halves(Half(Half(w)), n + 2);
  }

  // ------------------------------------------------------------------ a byte at a time

  lemma ByteHasEightBits(b: bv8)
    ensures Halves(Wide(b), 8) == 0
  {
    EightHalves(Wide(b));
    assert Down8(Wide(b)) == 0;
  }

  /** Adding n message bits one by one equals adding them all at once and then shifting n times. */
  lemma {:induction false} FeedBitsIsShifts(v: Word, bits: Word, n: nat)
    requires Halves(bits, n) == 0
    ensures FeedBits(v, bits, n) == Shifts(Xor(v, bits), n)
    decreases n
  {
    if n == 0 {
      XorZero(v);
    } else {
      LowBitApart(bits);
      XorAssociative(v, LowBit(bits), HighBits(bits));
      ShiftLinear(Xor(v, LowBit(bits)), HighBits(bits));
      FeedBitsIsShifts(Shift(Xor(v, LowBit(bits))), Half(bits), n - 1);
    }
  }

  /** The table step of the loop feeds exactly one byte to the bit-serial register. */
  lemma TableStep(v: Word, b: bv8)
    ensures Xor(Shifts(Wide(LowByte(Xor(v, Wide(b)))), 8), Down8(v)) == FeedBits(v, Wide(b), 8)
  {
    var x := Xor(v, Wide(b));
    ByteHasEightBits(b);
    FeedBitsIsShifts(v, Wide(b), 8);
    LowByteApart(x);
    ShiftsLinear(Wide(LowByte(x)), HighBytes(x), 8);
    ShiftsOfHighBytes(x);
    HighBytesKept(v, b);
  }

  // ------------------------------------------------------------------ the program

  lemma ByteIndex(b: bv8)
    ensures 0 <= b as int < 256 && (b as int) as bv8 == b
  {
  }

  /** Entry b of a correct table is the eightfold shift of b. */
  function Entry(index: int): Word
    requires 0 <= index < 256
  {
    Shifts(Wide(index as bv8), 8)
  }

  ghost predicate IsTable(table: seq<Word>) {
    |table| == 256 && forall i :: 0 <= i < 256 ==> table[i] == Entry(i)
  }

  method TableEntry(index: int) returns (value: Word)
    requires 0 <= index < 256
    ensures value == Entry(index)
  {
    value := Wide(index as bv8);
    ghost var start := value;
    for bit := 0 to 8
      invariant Shifts(start, 8) == Shifts(value, 8 - bit)
    {
      value := Shift(value);
    }
  }

  method BuildTable() returns (table: array<Word>)
    ensures fresh(table) && IsTable(table[..])
  {
    hide Entry;
    table := new Word[256];
    for index := 0 to 256
      invariant forall i :: 0 <= i < index ==> table[i] == Entry(i)
    {
      table[index] := TableEntry(index);
    }
  }

  /** The table-driven checksum is the bit-serial one, for every message. */
  method Checksum(table: array<Word>, bytes: Bytes) returns (checksum: Word)
    requires IsTable(table[..])
    ensures checksum == BitSerial(bytes)
  {
    var value := ALL_ONES;
    for i := 0 to |bytes|
      invariant value == Feed(ALL_ONES, bytes[..i])
    {
      var low := LowByte(Xor(value, Wide(bytes[i])));
      ByteIndex(low);
      assert table[..][low as int] == Entry(low as int);
      TableStep(value, bytes[i]);
      assert bytes[..i + 1][..i] == bytes[..i];
      value := Xor(table[low as int], Down8(value));
    }
    assert bytes[..|bytes|] == bytes;
    checksum := Xor(value, ALL_ONES);
  }

  // ------------------------------------------------------------------ what the checksum is for

  lemma FeedBitsInjective(v: Word, w: Word, b: bv8)
    requires FeedBits(v, Wide(b), 8) == FeedBits(w, Wide(b), 8)
    ensures v == w
  {
    ByteHasEightBits(b);
    FeedBitsIsShifts(v, Wide(b), 8);
    FeedBitsIsShifts(w, Wide(b), 8);
    ShiftsInjective(Xor(v, Wide(b)), Xor(w, Wide(b)), 8);
    XorCancel(v, w, Wide(b));
  }

  lemma {:induction false} FeedInjective(v: Word, w: Word, message: Bytes)
    requires Feed(v, message) == Feed(w, message)
    ensures v == w
  {
    if message != [] {
      var init, last := message[..|message| - 1], message[|message| - 1];
      FeedBitsInjective(Feed(v, init), Feed(w, init), last);
      FeedInjective(v, w, init);
    }
  }

  lemma {:induction false} FeedConcat(v: Word, a: Bytes, b: Bytes)
    ensures Feed(v, a + b) == Feed(Feed(v, a), b)
  {
    if b == [] {
      assert a + b == a;
    } else {
      assert (a + b)[..|a + b| - 1] == a + b[..|b| - 1];
      FeedConcat(v, a, b[..|b| - 1]);
    }
  }

  lemma FeedOne(v: Word, b: bv8)
    ensures Feed(v, [b]) == FeedBits(v, Wide(b), 8)
  {
    assert [b][..0] == [];
  }

  /** Changing any single byte of a message, anywhere, changes its checksum. */
  lemma OneChangedByteIsDetected(before: Bytes, a: bv8, b: bv8, after: Bytes)
    requires a != b
    ensures BitSerial(before + [a] + after) != BitSerial(before + [b] + after)
  {
    var v := Feed(ALL_ONES, before);
    FeedConcat(ALL_ONES, before + [a], after);
    FeedConcat(ALL_ONES, before + [b], after);
    FeedConcat(ALL_ONES, before, [a]);
    FeedConcat(ALL_ONES, before, [b]);
    if BitSerial(before + [a] + after) == BitSerial(before + [b] + after) {
      XorCancel(Feed(ALL_ONES, before + [a] + after), Feed(ALL_ONES, before + [b] + after), ALL_ONES);
      FeedInjective(Feed(v, [a]), Feed(v, [b]), after);
      FeedOne(v, a);
      FeedOne(v, b);
      ByteHasEightBits(a);
      ByteHasEightBits(b);
      FeedBitsIsShifts(v, Wide(a), 8);
      FeedBitsIsShifts(v, Wide(b), 8);
      ShiftsInjective(Xor(v, Wide(a)), Xor(v, Wide(b)), 8);
      XorCancel(Wide(a), Wide(b), v);
      WideInjective(a, b);
    }
  }

  /** Feeding the low byte of what stands in the register clears it out of the register. */
  lemma FeedOwnLowByte(c: Word, mask: Word)
    ensures FeedBits(Xor(c, mask), Wide(LowByte(c)), 8) == Xor(Down8(c), Shifts(mask, 8))
  {
    var b := LowByte(c);
    ByteHasEightBits(b);
    FeedBitsIsShifts(Xor(c, mask), Wide(b), 8);
    OwnByteCancels(c, mask);
    ShiftsLinear(HighBytes(c), mask, 8);
    ShiftsOfHighBytes(c);
  }

  lemma OwnByteCancels(c: Word, mask: Word)
    ensures Xor(Xor(c, mask), Wide(LowByte(c))) == Xor(HighBytes(c), mask)
    ensures Down8(HighBytes(c)) == Down8(c)
  {
    hide Xor, Wide, LowByte, HighBytes, Down8;
    LowByteApart(c);
    XorRotates(Wide(LowByte(c)), HighBytes(c), mask);
    LowByteFalls(c);
  }

  lemma XorRotates(a: Word, b: Word, mask: Word)
    ensures Xor(Xor(Xor(a, b), mask), a) == Xor(b, mask)
  {
    hide Xor;
    XorAssociative(a, b, mask);
    XorTwice(Xor(b, mask), a);
    XorCommutes(a, Xor(b, mask));
  }

  lemma XorCommutes(a: Word, b: Word)
    ensures Xor(a, b) == Xor(b, a)
  {
  }

  lemma LowByteFalls(c: Word)
    ensures Down8(HighBytes(c)) == Down8(c)
  {
  }

  lemma NothingLeft(c: Word, mask: Word)
    ensures Xor(Down8(Down8(Down8(Down8(c)))), mask) == mask
  {
  }

  lemma {:induction false} ShiftsAfter(v: Word, m: nat, n: nat)
    ensures Shifts(v, m + n) == Shifts(Shifts(v, m), n)
    decreases m
  {
    if m > 0 { ShiftsAfter(Shift(v), m - 1, n); }
  }

  lemma FourShifts(v: Word)
    ensures Shifts(v, 4) == Shift(Shift(Shift(Shift(v))))
  {
    hide Shift;
  }

  lemma EightShifts(v: Word)
    ensures Shifts(v, 8) == Shift(Shift(Shift(Shift(Shift(Shift(Shift(Shift(v))))))))
  {
    hide Shift, Shifts;
    ShiftsAfter(v, 4, 4);
    FourShifts(v);
    FourShifts(Shifts(v, 4));
  }

  lemma AllOnesShifted()
    ensures Shifts(Shifts(Shifts(Shifts(ALL_ONES, 8), 8), 8), 8) == 0xdebb20e3
  {
    hide Shifts;
    EightShifts(0xffffffff);
    EightShifts(0x2dfd1072);
    EightShifts(0xbe26ed00);
    EightShifts(0x00be26ed);
  }

  /** A checksum as the archive holds it, low byte first. */
  function LowFirst(c: Word): Bytes {
    [LowByte(c), LowByte(Down8(c)), LowByte(Down8(Down8(c))), LowByte(Down8(Down8(Down8(c))))]
  }

  lemma FeedFour(v: Word, a: bv8, b: bv8, c: bv8, d: bv8)
    ensures Feed(v, [a, b, c, d])
            == FeedBits(FeedBits(FeedBits(FeedBits(v, Wide(a), 8), Wide(b), 8), Wide(c), 8), Wide(d), 8)
  {
    hide FeedBits, Wide;
    assert [a, b, c, d][..3] == [a, b, c] && [a, b, c][..2] == [a, b] && [a, b][..1] == [a];
    FeedOne(v, a);
    assert Feed(v, [a, b]) == FeedBits(Feed(v, [a]), Wide(b), 8);
    assert Feed(v, [a, b, c]) == FeedBits(Feed(v, [a, b]), Wide(c), 8);
  }

  /** The magic number of section 4.4.7: a message followed by its own checksum leaves 0xdebb20e3 in the register,
      whatever the message. */
  lemma MagicNumber(message: Bytes)
    ensures Feed(ALL_ONES, message + LowFirst(BitSerial(message))) == 0xdebb20e3
  {
    hide FeedBits, Shifts, Wide, LowByte, Down8, Xor, Feed;
    var v, c := Feed(ALL_ONES, message), BitSerial(message);
    FeedConcat(ALL_ONES, message, LowFirst(c));
    XorTwice(v, ALL_ONES);
    FeedFour(v, LowByte(c), LowByte(Down8(c)), LowByte(Down8(Down8(c))), LowByte(Down8(Down8(Down8(c)))));
    var m1 := Shifts(ALL_ONES, 8);
    var m2 := Shifts(m1, 8);
    var m3 := Shifts(m2, 8);
    FeedOwnLowByte(c, ALL_ONES);
    FeedOwnLowByte(Down8(c), m1);
    FeedOwnLowByte(Down8(Down8(c)), m2);
    FeedOwnLowByte(Down8(Down8(Down8(c))), m3);
    NothingLeft(c, Shifts(m3, 8));
    AllOnesShifted();
  }

  lemma XorTwice(v: Word, mask: Word)
    ensures Xor(Xor(v, mask), mask) == v
  {
  }
}
