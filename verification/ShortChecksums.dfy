/** The top byte of the checksum of a few short texts. */
module ShortChecksums {
  import opened Arith
  import opened Bytes
  import opened Crc32

  /** The bit that goes out of the register at clock k. */
  function Out(r: Register, k: nat): bool {
    ShiftN(r, k)[0]
  }

  lemma {:induction false} ShiftNLast(r: Register, k: nat)
    ensures ShiftN(r, k + 1) == Shift(ShiftN(r, k))
    decreases k
  {
    if k > 0 {
      ShiftNLast(Shift(r), k - 1);
    }
  }

  lemma ShiftCell(r: Register, i: nat)
    requires i < 15
    ensures Shift(r)[i] == (r[i + 1] != (r[0] && i in {5, 8, 9}))
  {
  }

  /** Of the first sixteen cells only the ones at 5, 8 and 9 are taps, so what a cell holds after k clocks is what was k
      cells further in, and at most three of the bits that went out. */
  lemma {:induction false} CellAfter(r: Register, k: nat, i: nat)
    requires i + k < 16
    ensures ShiftN(r, k)[i]
         == (r[i + k] != ((i <= 5 && i + k >= 6 && Out(r, i + k - 6))
                          != ((i <= 8 && i + k >= 9 && Out(r, i + k - 9))
                              != (i <= 9 && i + k >= 10 && Out(r, i + k - 10)))))
    decreases k
  {
    hide ShiftN, Shift;
    if k == 0 {
      NoShift(r);
    } else {
      ShiftNLast(r, k - 1);
      ShiftCell(ShiftN(r, k - 1), i);
      CellAfter(r, k - 1, i + 1);
    }
  }

  lemma NoShift(r: Register)
    ensures ShiftN(r, 0) == r
  {
  }

  lemma OutAt(r: Register, k: nat)
    requires k < 16
    ensures Out(r, k)
         == (r[k] != ((k >= 6 && Out(r, k - 6)) != ((k >= 9 && Out(r, k - 9)) != (k >= 10 && Out(r, k - 10)))))
  {
    hide ShiftN;
    CellAfter(r, k, 0);
  }

  lemma TopOfShift(r: Register)
    ensures var s := Shift(r);
            s[31] == r[0] && s[30] == (r[31] != r[0]) && s[29] == (r[30] != r[0]) && s[28] == r[29]
  {
  }

  /** The four cells at the incoming end are sums of the last four bits that went out. */
  lemma TopCells(r: Register, k: nat)
    ensures
      var a, b, c, d := Out(r, k), Out(r, k + 1), Out(r, k + 2), Out(r, k + 3);
      var t := ShiftN(r, k + 4);
      t[31] == d && t[30] == (c != d) && t[29] == (b != (c != d)) && t[28] == (a != (b != c))
  {
    hide Shift, ShiftN;
    ShiftNLast(r, k);
    ShiftNLast(r, k + 1);
    ShiftNLast(r, k + 2);
    ShiftNLast(r, k + 3);
    TopOfShift(ShiftN(r, k));
    TopOfShift(ShiftN(r, k + 1));
    TopOfShift(ShiftN(r, k + 2));
    TopOfShift(ShiftN(r, k + 3));
  }

  /** The last bits out after sixteen clocks, in terms of the cells at first. */
  lemma LastOuts(r: Register)
    ensures Out(r, 12) == (r[12] != (r[6] != (r[0] != (r[3] != r[2]))))
    ensures Out(r, 13) == (r[13] != (r[7] != (r[1] != (r[4] != r[3]))))
    ensures Out(r, 14) == (r[14] != (r[8] != (r[2] != (r[5] != r[4]))))
    ensures Out(r, 15) == (r[15] != (r[9] != (r[3] != (r[6] != r[5]))))
  {
    hide Out;
    OutAt(r, 0);
    OutAt(r, 1);
    OutAt(r, 2);
    OutAt(r, 3);
    OutAt(r, 4);
    OutAt(r, 5);
    OutAt(r, 6);
    OutAt(r, 7);
    OutAt(r, 8);
    OutAt(r, 9);
    OutAt(r, 12);
    OutAt(r, 13);
    OutAt(r, 14);
    OutAt(r, 15);
  }

  // ---- the top byte of a checksum ----

  lemma {:induction false} ValueSplits(s: seq<bool>, t: seq<bool>)
    ensures Value(s + t) == Value(s) + Pow2(|s|) * Value(t)
  {
    if s == [] {
      assert s + t == t;
    } else {
      assert (s + t)[1..] == s[1..] + t;
      ValueSplits(s[1..], t);
      Doubled(Pow2(|s| - 1), Value(t));
    }
  }

  lemma Doubled(p: nat, v: nat)
    ensures 2 * p * v == 2 * (p * v)
  {
  }

  /** The last byte of a checksum as it is written. */
  function TopByte(data: seq<Byte>): Byte {
    PutUint32(Checksum(data))[3]
  }

  lemma TopByteBits(data: seq<Byte>)
    ensures TopByte(data) == Value(Not(Feed(Ones(), Bits(data)))[24..])
  {
    var c := Not(Feed(Ones(), Bits(data)));
    ValueSplits(c[..24], c[24..]);
    assert c == c[..24] + c[24..];
    ValueBound(c[..24]);
    assert Pow2(8) == 0x100 && Pow2(16) == 0x1_0000 && Pow2(24) == 0x100_0000;
  }

  function Bit(b: bool): nat {
    if b then 1 else 0
  }

  lemma ValueUnfolds(s: seq<bool>, i: nat)
    requires i < |s|
    ensures Value(s[i..]) == Bit(s[i]) + 2 * Value(s[i + 1..])
  {
    assert s[i..][1..] == s[i + 1..];
  }

  lemma ByteSum(s: seq<bool>)
    requires |s| == 8
    ensures Value(s) == Bit(s[0]) + 2 * Bit(s[1]) + 4 * Bit(s[2]) + 8 * Bit(s[3])
                        + 16 * Bit(s[4]) + 32 * Bit(s[5]) + 64 * Bit(s[6]) + 128 * Bit(s[7])
  {
    hide Value, Bit;
    assert s[0..] == s;
    ValueUnfolds(s, 0);
    ValueUnfolds(s, 1);
    ValueUnfolds(s, 2);
    ValueUnfolds(s, 3);
    ValueUnfolds(s, 4);
    ValueUnfolds(s, 5);
    ValueUnfolds(s, 6);
    ValueUnfolds(s, 7);
    EmptyValue(s[8..]);
  }

  lemma ByteBits(s: seq<bool>)
    requires |s| == 8
    ensures s[7] && !s[6] ==> 0x80 <= Value(s) < 0xC0
    ensures s[5] && s[4] ==> Value(s) % 0x40 >= 0x30
  {
    hide Value;
    ByteSum(s);
    var low := Bit(s[0]) + 2 * Bit(s[1]) + 4 * Bit(s[2]) + 8 * Bit(s[3]);
    var top := Bit(s[6]) + 2 * Bit(s[7]);
    assert Value(s) == low + 16 * Bit(s[4]) + 32 * Bit(s[5]) + 0x40 * top && low < 16;
  }

  lemma EmptyValue(s: seq<bool>)
    requires s == []
    ensures Value(s) == 0
  {
  }

  /** The top byte from the register: its cells, complemented. */
  lemma TopByteFromCells(data: seq<Byte>)
    ensures var r := Feed(Ones(), Bits(data));
            && (!r[31] && r[30] ==> 0x80 <= TopByte(data) < 0xC0)
            && (!r[29] && !r[28] ==> TopByte(data) % 0x40 >= 0x30)
  {
    TopByteBits(data);
    ByteBits(Not(Feed(Ones(), Bits(data)))[24..]);
  }

  lemma {:induction false} BitsConcat(p: seq<Byte>, q: seq<Byte>)
    ensures Bits(p + q) == Bits(p) + Bits(q)
  {
    if p == [] {
      assert p + q == q;
    } else {
      assert (p + q)[1..] == p[1..] + q;
      BitsConcat(p[1..], q);
    }
  }

  lemma BitsOfByte(b: Byte)
    ensures Bits([b]) == Digits(b, 8)
  {
    assert [b][1..] == [];
  }

  lemma DigitsAre(b: Byte, s: seq<bool>)
    requires |s| == 8
    requires b == Bit(s[0]) + 2 * Bit(s[1]) + 4 * Bit(s[2]) + 8 * Bit(s[3])
                  + 16 * Bit(s[4]) + 32 * Bit(s[5]) + 64 * Bit(s[6]) + 128 * Bit(s[7])
    ensures Digits(b, 8) == s
  {
    ByteSum(s);
    assert Pow2(8) == 0x100;
    ValueOfDigits(b, 8);
    ValueInjective(Digits(b, 8), s);
  }

  /** The digit 1. */
  lemma TopByteOfOne()
    ensures 0x80 <= TopByte([0x31]) < 0xC0
  {
    BitsOfByte(0x31);
    DigitsAre(0x31, [true, false, false, false, true, true, false, false]);
    FeedIsAdd(Ones(), Digits(0x31, 8));
    var r := Add(Ones(), Digits(0x31, 8));
    OutAt(r, 0);
    OutAt(r, 1);
    OutAt(r, 6);
    OutAt(r, 7);
    TopCells(r, 4);
    hide Out, ShiftN, Feed;
    TopByteFromCells([0x31]);
  }

  lemma TwoBytes(m: Register, a: Byte, b: Byte)
    ensures Feed(m, Bits([a, b])) == ShiftN(Add(m, Digits(a, 8) + Digits(b, 8)), 16)
  {
    BitsConcat([a], [b]);
    assert [a] + [b] == [a, b];
    BitsOfByte(a);
    BitsOfByte(b);
    FeedIsAdd(m, Digits(a, 8) + Digits(b, 8));
  }

  /** The empty string in its quotes. */
  lemma TopByteOfQuotes()
    ensures TopByte([0x22, 0x22]) % 0x40 >= 0x30
  {
    DigitsAre(0x22, [false, true, false, false, false, true, false, false]);
    TwoBytes(Ones(), 0x22, 0x22);
    var r := Add(Ones(), Digits(0x22, 8) + Digits(0x22, 8));
    LastOuts(r);
    TopCells(r, 12);
    hide Out, ShiftN, Feed;
    TopByteFromCells([0x22, 0x22]);
  }

  /** Of four letters one brings the top byte of the checksum, whatever comes before it, into 0x80..0xBF. */
  lemma TopByteOfText(start: seq<Byte>) returns (letter: Byte)
    ensures letter in {0x61, 0x69, 0x71, 0x79}
    ensures 0x80 <= TopByte(start + [letter, 0x22]) < 0xC0
  {
    var m := Feed(Ones(), Bits(start));
    letter := ChooseLetter(m);
    BitsConcat(start, [letter, 0x22]);
    FeedSplits(Ones(), Bits(start), Bits([letter, 0x22]));
    TopByteFromCells(start + [letter, 0x22]);
  }

  /** The two last bits out as they would be without the bits of the letter. */
  function Others14(m: Register): bool {
    m[14] != (m[8] != (m[2] != (m[5] != m[4])))
  }

  function Others15(m: Register): bool {
    m[15] != (m[9] != (m[3] != (m[6] != m[5])))
  }

  lemma TopAfterLetter(m: Register, letter: Byte, bit3: bool, bit4: bool)
    requires letter == 0x61 + 8 * Bit(bit3) + 16 * Bit(bit4)
    ensures var r := Feed(m, Bits([letter, 0x22]));
            && r[31] == (Others15(m) == bit3)
            && r[30] == ((Others14(m) == bit4) != r[31])
  {
    DigitsAre(0x22, [false, true, false, false, false, true, false, false]);
    DigitsAre(letter, [true, false, false, bit3, bit4, true, true, false]);
    TwoBytes(m, letter, 0x22);
    hide Digits, Feed, ShiftN, Out;
    var r := Add(m, Digits(letter, 8) + Digits(0x22, 8));
    LastOuts(r);
    TopCells(r, 12);
  }

  lemma ChooseLetter(m: Register) returns (letter: Byte)
    ensures letter in {0x61, 0x69, 0x71, 0x79}
    ensures var r := Feed(m, Bits([letter, 0x22])); !r[31] && r[30]
  {
    hide Feed, Others14, Others15;
    var bit3, bit4 := !Others15(m), Others14(m);
    letter := 0x61 + 8 * Bit(bit3) + 16 * Bit(bit4);
    TopAfterLetter(m, letter, bit3, bit4);
  }
}
