/** The checksum on 32-bit words, as the sample code in section 8 of RFC 1952 computes it without its table. */
module ReflectedCrc {
  import opened Arith
  import opened Bytes
  import opened Crc32
  import opened ShortChecksums

  /** One step of the inner loop: the word is shifted, and if a one fell out, the polynomial is added. */
  function Clock(c: bv32): bv32 {
    if c & 1 == 1 then 0xEDB8_8320 ^ (c >> 1) else c >> 1
  }

  function EightClocks(c: bv32): bv32 {
    Clock(Clock(Clock(Clock(Clock(Clock(Clock(Clock(c))))))))
  }

  /** The outer loop: one byte is added, then eight steps are made. */
  function Updated(c: bv32, data: seq<bv32>): bv32
    decreases |data|
  {
    if data == [] then c else Updated(EightClocks(c ^ data[0]), data[1..])
  }

  // ---- the bits of a word ----

  /** The bit above a single one. */
  function Up(mask: bv32): bv32 {
    mask << 1
  }

  /** The bit number i alone; nothing from bit 32 on. */
  function Mask(i: nat): bv32 {
    if i == 0 then 1 else Up(Mask(i - 1))
  }

  predicate Has(c: bv32, mask: bv32) {
    c & mask != 0
  }

  /** The bits of a word, least significant first. */
  function Cells(c: bv32): (r: Register) {
    seq(32, i requires 0 <= i < 32 => Has(c, Mask(i)))
  }

  predicate Single(mask: bv32) {
    mask & (mask - 1) == 0
  }

  lemma SingleShifts(mask: bv32)
    requires Single(mask)
    ensures Single(Up(mask))
  {
  }

  lemma OneIsSingle()
    ensures Single(1)
  {
  }

  lemma {:induction false} MaskIsSingle(i: nat)
    ensures Single(Mask(i))
  {
    hide Single;
    if i == 0 {
      OneIsSingle();
    } else {
      MaskIsSingle(i - 1);
      SingleShifts(Mask(i - 1));
    }
  }

  /** A mask and the seven above it. */
  function Octet(m: bv32): (masks: seq<bv32>)
    ensures |masks| == 8
  {
    var m1 := Up(m);
    var m2 := Up(m1);
    var m3 := Up(m2);
    var m4 := Up(m3);
    var m5 := Up(m4);
    var m6 := Up(m5);
    var m7 := Up(m6);
    [m, m1, m2, m3, m4, m5, m6, m7]
  }

  lemma NextMask(i: nat)
    ensures Mask(i + 1) == Up(Mask(i))
  {
  }

  lemma EightMasks(i: nat)
    ensures Octet(Mask(i)) == [Mask(i), Mask(i + 1), Mask(i + 2), Mask(i + 3),
                               Mask(i + 4), Mask(i + 5), Mask(i + 6), Mask(i + 7)]
    ensures Mask(i + 8) == Up(Octet(Mask(i))[7])
  {
    NextMask(i);
    NextMask(i + 1);
    NextMask(i + 2);
    NextMask(i + 3);
    NextMask(i + 4);
    NextMask(i + 5);
    NextMask(i + 6);
    NextMask(i + 7);
    hide Mask, Up;
  }

  lemma MaskBytes()
    ensures Mask(8) == 0x100 && Mask(16) == 0x1_0000 && Mask(24) == 0x100_0000 && Mask(32) == 0
  {
    hide Mask;
    FirstMask();
    EightMasks(0);
    EightMasks(8);
    EightMasks(16);
    EightMasks(24);
  }

  lemma FirstMask()
    ensures Mask(0) == 1
  {
  }

  lemma {:induction false} MaskNonzero(i: nat)
    requires i < 32
    ensures Mask(i) != 0
    decreases 32 - i
  {
    if i == 31 {
      MaskBytes();
      EightMasks(24);
      hide Mask;
    } else {
      MaskNonzero(i + 1);
    }
  }

  lemma {:induction false} HighMask(i: nat)
    requires i >= 8
    ensures Mask(i) & 0xFF == 0
  {
    if i == 8 {
      MaskBytes();
    } else {
      HighMask(i - 1);
    }
  }

  // ---- the bits of sums and shifts ----

  lemma XorBit(a: bv32, b: bv32, mask: bv32)
    requires Single(mask)
    ensures Has(a ^ b, mask) == (Has(a, mask) != Has(b, mask))
  {
  }

  lemma ShiftBit(c: bv32, mask: bv32)
    requires Single(mask)
    ensures Has(c >> 1, mask) == Has(c, Up(mask))
  {
  }

  lemma LowBit(c: bv32)
    ensures Has(c, 1) == (c & 1 == 1)
  {
  }

  lemma ClockBit(c: bv32, mask: bv32)
    requires Single(mask)
    ensures Has(Clock(c), mask) == (Has(c, Up(mask)) != (Has(c, 1) && Has(0xEDB8_8320, mask)))
  {
    hide Has, Single, Up;
    LowBit(c);
    ShiftBit(c, mask);
    XorBit(0xEDB8_8320, c >> 1, mask);
  }

  lemma NotBit(c: bv32, mask: bv32)
    requires Single(mask) && mask != 0
    ensures Has(!c, mask) == !Has(c, mask)
  {
  }

  lemma NoBit(c: bv32, mask: bv32)
    ensures !Has(c, 0)
    ensures c < 0x100 && mask & 0xFF == 0 ==> !Has(c, mask)
  {
  }

  // ---- the taps ----

  /** Eight bits of a word are eight taps. */
  ghost predicate TapsMatch(i: nat) {
    forall j :: i <= j < i + 8 ==> Has(0xEDB8_8320, Mask(j)) == Tap(j)
  }

  lemma EightTaps(i: nat, o: seq<bv32>)
    requires o == Octet(Mask(i))
    requires Has(0xEDB8_8320, o[0]) == Tap(i) && Has(0xEDB8_8320, o[1]) == Tap(i + 1)
    requires Has(0xEDB8_8320, o[2]) == Tap(i + 2) && Has(0xEDB8_8320, o[3]) == Tap(i + 3)
    requires Has(0xEDB8_8320, o[4]) == Tap(i + 4) && Has(0xEDB8_8320, o[5]) == Tap(i + 5)
    requires Has(0xEDB8_8320, o[6]) == Tap(i + 6) && Has(0xEDB8_8320, o[7]) == Tap(i + 7)
    ensures TapsMatch(i)
  {
    hide Has, Tap, Mask, Octet;
    EightMasks(i);
    assert forall j :: i <= j < i + 8 ==> o[j - i] == Mask(j);
  }

  lemma TapsAreCells()
    ensures Cells(0xEDB8_8320) == seq(32, i => Tap(i))
  {
    FirstTaps();
    SecondTaps();
    ThirdTaps();
    FourthTaps();
    hide TapsMatch, Mask, Has, Tap, Cells;
    AllTapsMatch();
  }

  lemma FirstTaps()
    ensures TapsMatch(0)
  {
    hide Mask, TapsMatch;
    FirstMask();
    var o: seq<bv32> := [0x1, 0x2, 0x4, 0x8, 0x10, 0x20, 0x40, 0x80];
    assert Octet(0x1) == o;
    hide Octet, Up;
    EightTaps(0, o);
  }

  lemma SecondTaps()
    ensures TapsMatch(8)
  {
    hide Mask, TapsMatch;
    MaskBytes();
    var o: seq<bv32> := [0x100, 0x200, 0x400, 0x800, 0x1000, 0x2000, 0x4000, 0x8000];
    assert Octet(0x100) == o;
    hide Octet, Up;
    EightTaps(8, o);
  }

  lemma ThirdTaps()
    ensures TapsMatch(16)
  {
    hide Mask, TapsMatch;
    MaskBytes();
    var o: seq<bv32> := [0x1_0000, 0x2_0000, 0x4_0000, 0x8_0000, 0x10_0000, 0x20_0000, 0x40_0000, 0x80_0000];
    assert Octet(0x1_0000) == o;
    hide Octet, Up;
    EightTaps(16, o);
  }

  lemma FourthTaps()
    ensures TapsMatch(24)
  {
    hide Mask, TapsMatch;
    MaskBytes();
    var o: seq<bv32> :=
      [0x100_0000, 0x200_0000, 0x400_0000, 0x800_0000, 0x1000_0000, 0x2000_0000, 0x4000_0000, 0x8000_0000];
    assert Octet(0x100_0000) == o;
    hide Octet, Up;
    EightTaps(24, o);
  }

  lemma AllTapsMatch()
    requires TapsMatch(0) && TapsMatch(8) && TapsMatch(16) && TapsMatch(24)
    ensures Cells(0xEDB8_8320) == seq(32, i => Tap(i))
  {
    hide Mask, Has, Tap;
  }

  // ---- the register holds the word ----

  lemma ShiftCells(c: bv32)
    ensures Shift(Cells(c)) == Cells(Clock(c))
  {
    TapsAreCells();
    hide Mask, Has, Clock, Single, Tap;
    FirstMask();
    MaskBytes();
    var s, t := Shift(Cells(c)), Cells(Clock(c));
    forall i | 0 <= i < 32
      ensures s[i] == t[i]
    {
      MaskIsSingle(i);
      NextMask(i);
      ClockBit(c, Mask(i));
      NoBit(c, 0);
      assert Cells(0xEDB8_8320)[i] == Tap(i);
    }
  }

  lemma EightShifts(c: bv32)
    ensures ShiftN(Cells(c), 8) == Cells(EightClocks(c))
  {
    hide Shift, Cells, Clock;
    var c1 := Clock(c);
    var c2 := Clock(c1);
    var c3 := Clock(c2);
    var c4 := Clock(c3);
    var c5 := Clock(c4);
    var c6 := Clock(c5);
    var c7 := Clock(c6);
    ShiftCells(c);
    ShiftCells(c1);
    ShiftCells(c2);
    ShiftCells(c3);
    ShiftCells(c4);
    ShiftCells(c5);
    ShiftCells(c6);
    ShiftCells(c7);
    assert ShiftN(Cells(c7), 1) == Cells(Clock(c7));
    assert ShiftN(Cells(c6), 2) == ShiftN(Cells(c7), 1);
    assert ShiftN(Cells(c5), 3) == ShiftN(Cells(c6), 2);
    assert ShiftN(Cells(c4), 4) == ShiftN(Cells(c5), 3);
    assert ShiftN(Cells(c3), 5) == ShiftN(Cells(c4), 4);
    assert ShiftN(Cells(c2), 6) == ShiftN(Cells(c3), 5);
    assert ShiftN(Cells(c1), 7) == ShiftN(Cells(c2), 6);
  }

  /** The byte in the low eight bits of a word. */
  function ByteOf(c: bv32): Byte {
    ValueBound(Cells(c)[..8]);
    assert Pow2(8) == 0x100;
    Value(Cells(c)[..8])
  }

  lemma DigitsOfByte(c: bv32)
    ensures Digits(ByteOf(c), 8) == Cells(c)[..8]
  {
    assert Pow2(8) == 0x100;
    ValueOfDigits(ByteOf(c), 8);
    ValueInjective(Digits(ByteOf(c), 8), Cells(c)[..8]);
  }

  lemma AddCells(c: bv32, b: bv32)
    requires b < 0x100
    ensures Add(Cells(c), Cells(b)[..8]) == Cells(c ^ b)
  {
    hide Mask, Has, Single;
    var s, t := Add(Cells(c), Cells(b)[..8]), Cells(c ^ b);
    forall i | 0 <= i < 32
      ensures s[i] == t[i]
    {
      MaskIsSingle(i);
      XorBit(c, b, Mask(i));
      if i >= 8 {
        HighMask(i);
        NoBit(b, Mask(i));
      }
    }
  }

  ghost predicate AreBytes(data: seq<bv32>) {
    forall i :: 0 <= i < |data| ==> data[i] < 0x100
  }

  function BytesOf(data: seq<bv32>): (bytes: seq<Byte>)
    ensures |bytes| == |data|
  {
    seq(|data|, i requires 0 <= i < |data| => ByteOf(data[i]))
  }

  lemma FeedByte(c: bv32, b: bv32)
    requires b < 0x100
    ensures Feed(Cells(c), Digits(ByteOf(b), 8)) == Cells(EightClocks(c ^ b))
  {
    hide Cells, Feed, ByteOf, EightClocks;
    FeedIsAdd(Cells(c), Digits(ByteOf(b), 8));
    DigitsOfByte(b);
    AddCells(c, b);
    EightShifts(c ^ b);
  }

  lemma {:induction false} FeedCells(c: bv32, data: seq<bv32>)
    requires AreBytes(data)
    ensures Feed(Cells(c), Bits(BytesOf(data))) == Cells(Updated(c, data))
    decreases |data|
  {
    hide Cells, ByteOf, EightClocks, Feed;
    if data == [] {
      FeedNothing(Cells(c));
    } else {
      assert BytesOf(data)[1..] == BytesOf(data[1..]);
      FeedSplits(Cells(c), Digits(ByteOf(data[0]), 8), Bits(BytesOf(data[1..])));
      FeedByte(c, data[0]);
      FeedCells(EightClocks(c ^ data[0]), data[1..]);
    }
  }

  lemma FeedNothing(r: Register)
    ensures Feed(r, []) == r
  {
  }

  lemma NotCells(c: bv32)
    ensures Not(Cells(c)) == Cells(!c)
  {
    hide Mask, Has, Single;
    forall i | 0 <= i < 32
      ensures Not(Cells(c))[i] == Cells(!c)[i]
    {
      MaskIsSingle(i);
      MaskNonzero(i);
      NotBit(c, Mask(i));
    }
  }

  lemma AllOnes()
    ensures Ones() == Cells(0xFFFF_FFFF)
  {
    hide Mask;
    forall i | 0 <= i < 32
      ensures Has(0xFFFF_FFFF, Mask(i))
    {
      MaskNonzero(i);
    }
  }

  /** The checksum is, bit by bit, the word that the RFC's loops compute. */
  lemma ChecksumIsUpdated(data: seq<bv32>)
    requires AreBytes(data)
    ensures Checksum(BytesOf(data)) == Value(Cells(!Updated(0xFFFF_FFFF, data)))
  {
    hide Cells, Updated, Feed, Bits, BytesOf;
    AllOnes();
    FeedCells(0xFFFF_FFFF, data);
    NotCells(Updated(0xFFFF_FFFF, data));
  }

  // ---- known values ----

  /** The bits of a word under eight masks. */
  function HasEach(c: bv32, masks: seq<bv32>): (s: seq<bool>)
    requires |masks| == 8
    ensures |s| == 8
  {
    [Has(c, masks[0]), Has(c, masks[1]), Has(c, masks[2]), Has(c, masks[3]),
     Has(c, masks[4]), Has(c, masks[5]), Has(c, masks[6]), Has(c, masks[7])]
  }

  /** The byte of a word that starts where the mask points. */
  function ByteAt(c: bv32, mask: bv32): nat {
    var s := HasEach(c, Octet(mask));
    Bit(s[0]) + 2 * Bit(s[1]) + 4 * Bit(s[2]) + 8 * Bit(s[3])
    + 16 * Bit(s[4]) + 32 * Bit(s[5]) + 64 * Bit(s[6]) + 128 * Bit(s[7])
  }

  lemma EachAt(c: bv32, i: nat, k: nat)
    requires k < 8
    ensures HasEach(c, Octet(Mask(i)))[k] == Has(c, Mask(i + k))
  {
    hide Mask, Has, Octet;
    EightMasks(i);
  }

  lemma ByteCells(c: bv32, i: nat)
    requires i <= 24
    ensures Cells(c)[i..i + 8] == HasEach(c, Octet(Mask(i)))
  {
    hide Mask, Has, Octet, HasEach;
    var s, t := Cells(c)[i..i + 8], HasEach(c, Octet(Mask(i)));
    forall k: nat | k < 8
      ensures s[k] == t[k]
    {
      EachAt(c, i, k);
    }
  }

  lemma ByteValue(c: bv32, i: nat)
    requires i <= 24
    ensures Value(Cells(c)[i..i + 8]) == ByteAt(c, Mask(i))
  {
    hide Mask, Has, Value, Octet, Cells, HasEach, Bit;
    ByteCells(c, i);
    ByteSum(HasEach(c, Octet(Mask(i))));
  }

  lemma WordValue(c: bv32)
    ensures Value(Cells(c)) == ByteAt(c, 1) + 0x100 * ByteAt(c, 0x100) + 0x1_0000 * ByteAt(c, 0x1_0000)
                               + 0x100_0000 * ByteAt(c, 0x100_0000)
  {
    hide Mask, Has, Value, ByteAt, Cells;
    FirstMask();
    MaskBytes();
    assert Pow2(8) == 0x100 && Pow2(16) == 0x1_0000 && Pow2(24) == 0x100_0000;
    var r := Cells(c);
    ByteValue(c, 0);
    ByteValue(c, 8);
    ByteValue(c, 16);
    ByteValue(c, 24);
    ValueSplits(r[..24], r[24..]);
    ValueSplits(r[..16], r[16..24]);
    ValueSplits(r[..8], r[8..16]);
    assert r == r[..24] + r[24..32] && r[..24] == r[..16] + r[16..24] && r[..16] == r[..8] + r[8..16];
    assert r[0..8] == r[..8] && r[24..32] == r[24..];
  }

  /** Read as a number the taps are the polynomial of the RFC. */
  lemma TapsArePolynomial()
    ensures Value(seq(32, i => Tap(i))) == 0xEDB8_8320
  {
    hide Value, Cells, Tap, Mask;
    TapsAreCells();
    WordValue(0xEDB8_8320);
    assert ByteAt(0xEDB8_8320, 1) == 0x20 && ByteAt(0xEDB8_8320, 0x100) == 0x83;
    assert ByteAt(0xEDB8_8320, 0x1_0000) == 0xB8 && ByteAt(0xEDB8_8320, 0x100_0000) == 0xED;
  }

  lemma ByteOfIs(c: bv32)
    ensures ByteOf(c) == ByteAt(c, 1)
  {
    hide Value, Cells, Mask, ByteAt;
    FirstMask();
    ByteValue(c, 0);
    assert Cells(c)[0..8] == Cells(c)[..8];
  }

  lemma AsciiDigits()
    ensures BytesOf([0x31, 0x32, 0x33, 0x34, 0x35, 0x36, 0x37, 0x38, 0x39])
         == [0x31, 0x32, 0x33, 0x34, 0x35, 0x36, 0x37, 0x38, 0x39]
  {
    hide ByteOf;
    ByteOfIs(0x31);
    ByteOfIs(0x32);
    ByteOfIs(0x33);
    ByteOfIs(0x34);
    ByteOfIs(0x35);
    ByteOfIs(0x36);
    ByteOfIs(0x37);
    ByteOfIs(0x38);
    ByteOfIs(0x39);
  }

  lemma Next(c: bv32, b: bv32, rest: seq<bv32>, next: bv32)
    requires EightClocks(c ^ b) == next
    ensures Updated(c, [b] + rest) == Updated(next, rest)
  {
    hide EightClocks;
    assert ([b] + rest)[1..] == rest;
  }

  lemma DigitsUpdated()
    ensures Updated(0xFFFF_FFFF, [0x31, 0x32, 0x33, 0x34, 0x35, 0x36, 0x37, 0x38, 0x39]) == 0x340B_C6D9
  {
    hide Updated;
    Next(0xFFFF_FFFF, 0x31, [0x32, 0x33, 0x34, 0x35, 0x36, 0x37, 0x38, 0x39], 0x7C23_1048);
    Next(0x7C23_1048, 0x32, [0x33, 0x34, 0x35, 0x36, 0x37, 0x38, 0x39], 0xB0AC_BB32);
    Next(0xB0AC_BB32, 0x33, [0x34, 0x35, 0x36, 0x37, 0x38, 0x39], 0x77B7_9C2D);
    Next(0x77B7_9C2D, 0x34, [0x35, 0x36, 0x37, 0x38, 0x39], 0x641C_1F5C);
    Next(0x641C_1F5C, 0x35, [0x36, 0x37, 0x38, 0x39], 0x340A_C5E3);
    Next(0x340A_C5E3, 0x36, [0x37, 0x38, 0x39], 0xF68D_2C9E);
    Next(0xF68D_2C9E, 0x37, [0x38, 0x39], 0xAFFC_9660);
    Next(0xAFFC_9660, 0x38, [0x39], 0x651F_2550);
    Next(0x651F_2550, 0x39, [], 0x340B_C6D9);
    NothingUpdated(0x340B_C6D9);
    hide EightClocks;
    assert [0x38 as bv32] + [0x39] == [0x38, 0x39] && [0x39 as bv32] + [] == [0x39];
    assert [0x37 as bv32] + [0x38, 0x39] == [0x37, 0x38, 0x39];
    assert [0x36 as bv32] + [0x37, 0x38, 0x39] == [0x36, 0x37, 0x38, 0x39];
    assert [0x35 as bv32] + [0x36, 0x37, 0x38, 0x39] == [0x35, 0x36, 0x37, 0x38, 0x39];
    assert [0x34 as bv32] + [0x35, 0x36, 0x37, 0x38, 0x39] == [0x34, 0x35, 0x36, 0x37, 0x38, 0x39];
    assert [0x33 as bv32] + [0x34, 0x35, 0x36, 0x37, 0x38, 0x39] == [0x33, 0x34, 0x35, 0x36, 0x37, 0x38, 0x39];
    assert [0x32 as bv32] + [0x33, 0x34, 0x35, 0x36, 0x37, 0x38, 0x39]
        == [0x32, 0x33, 0x34, 0x35, 0x36, 0x37, 0x38, 0x39];
    assert [0x31 as bv32] + [0x32, 0x33, 0x34, 0x35, 0x36, 0x37, 0x38, 0x39]
        == [0x31, 0x32, 0x33, 0x34, 0x35, 0x36, 0x37, 0x38, 0x39];
  }

  lemma NothingUpdated(c: bv32)
    ensures Updated(c, []) == c
  {
  }

  /** The check value that every description of this checksum gives: that of the digits 1 to 9. */
  lemma CheckValue()
    ensures Checksum([0x31, 0x32, 0x33, 0x34, 0x35, 0x36, 0x37, 0x38, 0x39]) == 0xCBF4_3926
  {
    hide Value, Cells, Updated, BytesOf, Checksum;
    AsciiDigits();
    DigitsUpdated();
    ChecksumIsUpdated([0x31, 0x32, 0x33, 0x34, 0x35, 0x36, 0x37, 0x38, 0x39]);
    assert !(0x340B_C6D9 as bv32) == 0xCBF4_3926;
    WordValue(0xCBF4_3926);
    assert ByteAt(0xCBF4_3926, 1) == 0x26 && ByteAt(0xCBF4_3926, 0x100) == 0x39;
    assert ByteAt(0xCBF4_3926, 0x1_0000) == 0xF4 && ByteAt(0xCBF4_3926, 0x100_0000) == 0xCB;
  }

  /** The checksum of the digit 1. */
  lemma ChecksumOfOne()
    ensures Checksum([0x31]) == 0x83DC_EFB7
  {
    hide Value, Cells, Updated, BytesOf, Checksum;
    OneByte();
    Next(0xFFFF_FFFF, 0x31, [], 0x7C23_1048);
    assert [0x31 as bv32] + [] == [0x31];
    NothingUpdated(0x7C23_1048);
    ChecksumIsUpdated([0x31]);
    assert !(0x7C23_1048 as bv32) == 0x83DC_EFB7;
    WordValue(0x83DC_EFB7);
    assert ByteAt(0x83DC_EFB7, 1) == 0xB7 && ByteAt(0x83DC_EFB7, 0x100) == 0xEF;
    assert ByteAt(0x83DC_EFB7, 0x1_0000) == 0xDC && ByteAt(0x83DC_EFB7, 0x100_0000) == 0x83;
  }

  lemma OneByte()
    ensures BytesOf([0x31]) == [0x31]
  {
    hide ByteOf;
    ByteOfIs(0x31);
  }
}
