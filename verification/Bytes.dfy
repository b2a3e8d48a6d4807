/** Bytes, their bits in transmission order, and little-endian integers, as `encoding/binary` writes them. */
module Bytes {
  import opened Arith

  type Byte = b: int | 0 <= b < 256

  const TWO_TO_16 := 0x1_0000
  const TWO_TO_32 := 0x1_0000_0000

  type Uint16 = n: int | 0 <= n < TWO_TO_16
  type Uint32 = n: int | 0 <= n < TWO_TO_32

  /** The `k` low binary digits of `n`, least significant first. */
  function Digits(n: nat, k: nat): (bits: seq<bool>)
    ensures |bits| == k
  {
    if k == 0 then [] else [n % 2 == 1] + Digits(n / 2, k - 1)
  }

  function Bits(data: seq<Byte>): (bits: seq<bool>)
    ensures |bits| == 8 * |data|
  {
    if data == [] then [] else Digits(data[0], 8) + Bits(data[1..])
  }

  /** The number whose binary digits, least significant first, are `bits`. */
  function Value(bits: seq<bool>): nat {
    if bits == [] then 0 else (if bits[0] then 1 else 0) + 2 * Value(bits[1..])
  }

  lemma {:induction false} ValueInjective(s: seq<bool>, t: seq<bool>)
    requires |s| == |t| && Value(s) == Value(t)
    ensures s == t
  {
    if s != [] {
      ValueInjective(s[1..], t[1..]);
      assert s == [s[0]] + s[1..] && t == [t[0]] + t[1..];
    }
  }

  lemma {:induction false} ValueBound(bits: seq<bool>)
    ensures Value(bits) < Pow2(|bits|)
  {
    if bits != [] {
      ValueBound(bits[1..]);
    }
  }

  lemma {:induction false} ValueOfDigits(n: nat, k: nat)
    requires n < Pow2(k)
    ensures Value(Digits(n, k)) == n
  {
    if k > 0 {
      ValueOfDigits(n / 2, k - 1);
    }
  }

  lemma {:induction false} BitsInjective(p: seq<Byte>, q: seq<Byte>)
    requires Bits(p) == Bits(q)
    ensures p == q
  {
    if p != [] && q != [] {
      assert Bits(p)[..8] == Digits(p[0], 8) && Bits(q)[..8] == Digits(q[0], 8);
      assert Bits(p)[8..] == Bits(p[1..]) && Bits(q)[8..] == Bits(q[1..]);
      assert Pow2(8) == 256;
      ValueOfDigits(p[0], 8);
      ValueOfDigits(q[0], 8);
      BitsInjective(p[1..], q[1..]);
      assert p == [p[0]] + p[1..] && q == [q[0]] + q[1..];
    }
  }

  function PutUint16(n: Uint16): (bytes: seq<Byte>)
    ensures |bytes| == 2
  {
    [n % 256, n / 256]
  }

  function GetUint16(bytes: seq<Byte>): Uint16
    requires |bytes| == 2
  {
    bytes[0] as int + bytes[1] as int * 256
  }

  function PutUint32(n: Uint32): (bytes: seq<Byte>)
    ensures |bytes| == 4
  {
    [n % 256, n / 0x100 % 256, n / 0x1_0000 % 256, n / 0x100_0000]
  }

  function GetUint32(bytes: seq<Byte>): Uint32
    requires |bytes| == 4
  {
    bytes[0] as int + bytes[1] as int * 0x100 + bytes[2] as int * 0x1_0000 + bytes[3] as int * 0x100_0000
  }

  /** Little-endian reading and writing undo each other. */
  lemma Uint16RoundTrip(n: Uint16, bytes: seq<Byte>)
    requires |bytes| == 2
    ensures GetUint16(PutUint16(n)) == n
    ensures PutUint16(GetUint16(bytes)) == bytes
  {}

  lemma Uint32Digits(b0: Byte, b1: Byte, b2: Byte, b3: Byte, v: int)
    requires v == b0 as int + 256 * (b1 as int + 256 * (b2 as int + 256 * b3 as int))
    ensures v % 256 == b0 && v / 0x100 % 256 == b1 && v / 0x1_0000 % 256 == b2 && v / 0x100_0000 == b3
  {
    var u := b1 as int + 256 * (b2 as int + 256 * b3 as int);
    var w := b2 as int + 256 * b3 as int;
    assert v / 0x100 == u && v / 0x1_0000 == w;
  }

  lemma Uint32RoundTrip(n: Uint32, bytes: seq<Byte>)
    requires |bytes| == 4
    ensures GetUint32(PutUint32(n)) == n
    ensures PutUint32(GetUint32(bytes)) == bytes
  {
    Uint32FromBytes(n);
    var v := GetUint32(bytes);
    Uint32Digits(bytes[0], bytes[1], bytes[2], bytes[3], v);
    hide GetUint32;
    assert PutUint32(v) == [bytes[0], bytes[1], bytes[2], bytes[3]] == bytes;
  }

  lemma Uint32FromBytes(n: Uint32)
    ensures GetUint32(PutUint32(n)) == n
  {
    var u := n / 0x100;
    var w := u / 0x100;
    assert n / 0x1_0000 == w && n / 0x100_0000 == w / 0x100;
  }
}
