/** CRC-32 as `hash/crc32.ChecksumIEEE` computes it. The register is the one of the sample code in
    section 8 of RFC 1952, one bit a step; clause 3.2.9 of IEEE Std 802.3 defines the same value as
    the remainder of a polynomial division, and the two are proved equal here. */
module Crc32 {
  import opened Arith
  import opened Bytes

  /** Exponents of the generator below the leading x^32. */
  const GENERATOR: set<int> := {26, 23, 22, 16, 12, 11, 10, 8, 7, 5, 4, 2, 1, 0}

  /** 32 cells; cell i holds the coefficient of x^(31-i), which is bit i of the reflected word. */
  type Register = r: seq<bool> | |r| == 32 witness seq(32, _ => false)

  predicate Tap(i: int) {
    31 - i in GENERATOR
  }

  function Ones(): (r: Register) {
    seq(32, _ => true)
  }

  function Not(r: Register): (c: Register) {
    seq(32, i requires 0 <= i < 32 => !r[i])
  }

  /** One clock: shift towards cell 0 and, when a one falls out, add the generator. */
  function Shift(r: Register): (s: Register) {
    seq(32, i requires 0 <= i < 32 => (i < 31 && r[i + 1]) != (r[0] && Tap(i)))
  }

  function ShiftN(r: Register, n: nat): Register
    decreases n
  {
    if n == 0 then r else ShiftN(Shift(r), n - 1)
  }

  /** Add one message bit to the outgoing cell. */
  function Inject(r: Register, b: bool): Register {
    r[0 := r[0] != b]
  }

  /** The register after the message bits, in transmission order. */
  function Feed(r: Register, bits: seq<bool>): Register
    decreases |bits|
  {
    if bits == [] then r else Feed(Shift(Inject(r, bits[0])), bits[1..])
  }

  function Checksum(data: seq<Byte>): Uint32 {
    var r := Not(Feed(Ones(), Bits(data)));
    ValueBound(r);
    assert Pow2(8) == 0x100 && Pow2(16) == 0x1_0000 && Pow2(24) == 0x100_0000 && Pow2(32) == TWO_TO_32;
    Value(r)
  }

  // ---- the register computes a polynomial remainder ----

  /** Coefficients of the generator, x^32 first. */
  function GeneratorPolynomial(): (g: seq<bool>)
    ensures |g| == 33
  {
    seq(33, j => j == 0 || 32 - j in GENERATOR)
  }

  /** Remainder of long division by the generator; coefficients are listed from the highest degree. */
  function Remainder(p: seq<bool>): (r: seq<bool>)
    requires |p| >= 32
    ensures |r| == 32
    decreases |p|
  {
    if |p| == 32 then p
    else if p[0] then Remainder(SubtractGenerator(p)[1..])
    else Remainder(p[1..])
  }

  function SubtractGenerator(p: seq<bool>): (q: seq<bool>)
    requires |p| >= 33
    ensures |q| == |p|
  {
    seq(|p|, i requires 0 <= i < |p| => if i < 33 then p[i] != GeneratorPolynomial()[i] else p[i])
  }

  /** The message times x^32, plus the register in the 32 leading places. */
  function Dividend(r: Register, bits: seq<bool>): (p: seq<bool>)
    ensures |p| == 32 + |bits|
  {
    seq(32 + |bits|, i requires 0 <= i < 32 + |bits| => (i < 32 && r[i]) != (i < |bits| && bits[i]))
  }

  /** One step of the division is one clock of the register. */
  lemma DivisionStep(r: Register, bits: seq<bool>)
    requires bits != []
    ensures var p := Dividend(r, bits);
            (if p[0] then SubtractGenerator(p)[1..] else p[1..]) == Dividend(Shift(Inject(r, bits[0])), bits[1..])
  {
    var p := Dividend(r, bits);
    var q := if p[0] then SubtractGenerator(p)[1..] else p[1..];
    var d := Dividend(Shift(Inject(r, bits[0])), bits[1..]);
    forall i | 0 <= i < |q|
      ensures q[i] == d[i]
    {
      if i < 32 {
        assert GeneratorPolynomial()[i + 1] == Tap(i);
      }
    }
  }

  lemma {:induction false} FeedIsRemainder(r: Register, bits: seq<bool>)
    ensures Feed(r, bits) == Remainder(Dividend(r, bits))
    decreases |bits|
  {
    if bits == [] {
      assert Dividend(r, bits) == r;
    } else {
      DivisionStep(r, bits);
      hide Dividend, SubtractGenerator, Shift, Inject;
      FeedIsRemainder(Shift(Inject(r, bits[0])), bits[1..]);
    }
  }

  /** Clause 3.2.9: complement the first 32 bits of the message times x^32, divide, complement the rest. */
  lemma ChecksumIsRemainder(data: seq<Byte>)
    ensures Checksum(data) == Value(Not(Remainder(Dividend(Ones(), Bits(data)))))
  {
    FeedIsRemainder(Ones(), Bits(data));
  }

  // ---- the register loses nothing ----

  lemma ShiftInjective(a: Register, b: Register)
    requires Shift(a) == Shift(b)
    ensures a == b
  {
    var s, t := Shift(a), Shift(b);
    assert s[31] == a[0] && t[31] == b[0];
    forall i | 0 <= i < 32
      ensures a[i] == b[i]
    {
      if i > 0 {
        assert s[i - 1] == t[i - 1];
      }
    }
  }

  lemma {:induction false} ShiftNInjective(a: Register, b: Register, n: nat)
    requires ShiftN(a, n) == ShiftN(b, n)
    ensures a == b
    decreases n
  {
    if n > 0 {
      ShiftNInjective(Shift(a), Shift(b), n - 1);
      ShiftInjective(a, b);
    }
  }

  lemma {:induction false} FeedInjective(a: Register, b: Register, bits: seq<bool>)
    requires Feed(a, bits) == Feed(b, bits)
    ensures a == b
    decreases |bits|
  {
    if bits != [] {
      var c, d := Inject(a, bits[0]), Inject(b, bits[0]);
      FeedInjective(Shift(c), Shift(d), bits[1..]);
      ShiftInjective(c, d);
      assert a == c[0 := a[0]] && b == d[0 := b[0]];
      assert c[0] == d[0];
    }
  }

  lemma {:induction false} FeedSplits(r: Register, s: seq<bool>, t: seq<bool>)
    ensures Feed(r, s + t) == Feed(Feed(r, s), t)
    decreases |s|
  {
    if s == [] {
      assert s + t == t;
    } else {
      assert (s + t)[1..] == s[1..] + t;
      FeedSplits(Shift(Inject(r, s[0])), s[1..], t);
    }
  }

  // ---- up to 32 bits can be added at once ----

  function Add(r: Register, bits: seq<bool>): Register
    requires |bits| <= 32
  {
    seq(32, i requires 0 <= i < 32 => r[i] != (i < |bits| && bits[i]))
  }

  lemma {:induction false} FeedIsAdd(r: Register, bits: seq<bool>)
    requires |bits| <= 32
    ensures Feed(r, bits) == ShiftN(Add(r, bits), |bits|)
    decreases |bits|
  {
    if bits == [] {
      assert Add(r, bits) == r;
    } else {
      var s := Shift(Inject(r, bits[0]));
      FeedIsAdd(s, bits[1..]);
      assert Shift(Add(r, bits)) == Add(s, bits[1..]);
    }
  }

  // ---- burst errors ----

  /** All positions where two bit strings differ lie in one window of `len` consecutive bits. */
  ghost predicate DifferWithin(s: seq<bool>, t: seq<bool>, start: nat, len: nat) {
    |s| == |t| && forall i :: 0 <= i < |s| && s[i] != t[i] ==> start <= i < start + len
  }

  lemma {:induction false} WindowSeparates(r: Register, u: seq<bool>, v: seq<bool>)
    requires |u| == |v| <= 32 && Feed(r, u) == Feed(r, v)
    ensures u == v
  {
    FeedIsAdd(r, u);
    FeedIsAdd(r, v);
    ShiftNInjective(Add(r, u), Add(r, v), |u|);
    forall i | 0 <= i < |u|
      ensures u[i] == v[i]
    {
      assert Add(r, u)[i] == Add(r, v)[i];
    }
  }

  /** Distinct bit strings that differ only inside a 32-bit window drive every register apart. */
  lemma BurstSeparates(r: Register, s: seq<bool>, t: seq<bool>, start: nat)
    requires DifferWithin(s, t, start, 32) && Feed(r, s) == Feed(r, t)
    ensures s == t
  {
    hide Feed;
    var lo := if start <= |s| then start else |s|;
    var hi := if start + 32 <= |s| then start + 32 else |s|;
    var u, v := s[lo..hi], t[lo..hi];
    assert s == s[..lo] + (u + s[hi..]) && t == s[..lo] + (v + s[hi..]);
    var m := Feed(r, s[..lo]);
    FeedSplits(r, s[..lo], u + s[hi..]);
    FeedSplits(r, s[..lo], v + s[hi..]);
    FeedSplits(m, u, s[hi..]);
    FeedSplits(m, v, s[hi..]);
    FeedInjective(Feed(m, u), Feed(m, v), s[hi..]);
    WindowSeparates(m, u, v);
  }

  /** Any nonzero burst confined to 32 consecutive bits changes the checksum. */
  lemma BurstDetected(p: seq<Byte>, q: seq<Byte>, start: nat)
    requires |p| == |q| && p != q
    requires forall i :: 0 <= i < 8 * |p| && Bits(p)[i] != Bits(q)[i] ==> start <= i < start + 32
    ensures Checksum(p) != Checksum(q)
  {
    BurstChanges(p, q, start);
  }

  lemma BurstChanges(p: seq<Byte>, q: seq<Byte>, start: nat)
    requires p != q && DifferWithin(Bits(p), Bits(q), start, 32)
    ensures Checksum(p) != Checksum(q)
  {
    if Checksum(p) == Checksum(q) {
      var a, b := Feed(Ones(), Bits(p)), Feed(Ones(), Bits(q));
      ValueInjective(Not(a), Not(b));
      forall i | 0 <= i < 32
        ensures a[i] == b[i]
      {
        assert Not(a)[i] == Not(b)[i];
      }
      BurstSeparates(Ones(), Bits(p), Bits(q), start);
      BitsInjective(p, q);
    }
  }

  /** The bound is sharp: adding the 33 coefficients of the generator itself goes unnoticed. */
  lemma GeneratorUndetected(r: Register, bits: seq<bool>, other: seq<bool>)
    requires |bits| == |other| == 33
    requires forall i :: 0 <= i < 33 ==> other[i] == (bits[i] != GeneratorPolynomial()[i])
    ensures Feed(r, bits) == Feed(r, other)
  {
    var s, t := Shift(Inject(r, bits[0])), Shift(Inject(r, other[0]));
    var u, v := bits[1..], other[1..];
    GeneratorReplacesFallenBit(r, bits[0], u, v);
    FeedIsAdd(s, u);
    FeedIsAdd(t, v);
  }

  lemma GeneratorReplacesFallenBit(r: Register, b: bool, u: seq<bool>, v: seq<bool>)
    requires |u| == |v| == 32 && forall i :: 0 <= i < 32 ==> v[i] == (u[i] != Tap(i))
    ensures Add(Shift(Inject(r, b)), u) == Add(Shift(Inject(r, !b)), v)
  {}
}
