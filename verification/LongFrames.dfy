/** How long a message may be for its frame to be safe from bursts. */
module LongFrames {
  import opened Bytes
  import opened FrameCodec
  import opened JsonText
  import Crc32
  import ShortChecksums

  predicate PlainAscii(body: seq<Byte>) {
    AllPlain(body) && forall i :: 0 <= i < |body| ==> body[i] < 0x80
  }

  /** A reader of JSON that takes at least the digit 1 and the strings of plain ASCII. */
  ghost predicate TakesPlain(parses: seq<Byte> -> bool) {
    && parses([0x31])
    && forall body: seq<Byte> :: PlainAscii(body) ==> parses(PlainText(body))
  }

  /** A change of a payload confined to 32 consecutive bits. */
  ghost predicate Burst(payload: seq<Byte>, damaged: seq<Byte>, start: nat) {
    |payload| == |damaged| && payload != damaged && Crc32.DifferWithin(Bits(payload), Bits(damaged), start, 32)
  }

  /** What a handler delivers of its own frame when the payload was changed on the way. */
  function Received(profile: Profile, sequence: Uint32, parses: seq<Byte> -> bool, payload: seq<Byte>,
                    damaged: seq<Byte>): Result<seq<Byte>>
    requires |payload| == |damaged|
  {
    Decode(profile, true, parses, Overwrite(FrameBytes(MakeFrame(profile, true, sequence, payload)), damaged))
  }

  /** No burst on the payload of any message of this length goes unnoticed. */
  ghost predicate BurstsRejected(profile: Profile, sequence: Uint32, parses: seq<Byte> -> bool, length: nat) {
    forall payload, damaged, start ::
      |payload| == length && ValueText(payload) && Burst(payload, damaged, start) ==>
        Received(profile, sequence, parses, payload, damaged).Err?
  }

  // ---- lengths at which every burst is rejected ----

  lemma SafeLength(profile: Profile, sequence: Uint32, parses: seq<Byte> -> bool, payload: seq<Byte>,
                   damaged: seq<Byte>, start: nat)
    requires ReadsJson(parses) && Burst(payload, damaged, start)
    requires |payload| < TWO_TO_32 || |payload| % TWO_TO_32 == 0
    ensures Received(profile, sequence, parses, payload, damaged).Err?
  {
    hide Decode, FrameBytes, Document;
    BurstRejected(profile, sequence, parses, payload, damaged, start);
    if |payload| >= TWO_TO_32 {
      assert damaged[..0] == [];
      NothingIsNoDocument();
    }
  }

  lemma NothingIsNoDocument()
    ensures !Document([])
  {
    if Document([]) {
      DocumentClosed([]);
    }
  }

  // ---- a message and a burst at every other length ----

  /** A document of n bytes; the last byte of its checksum may stand in a string. */
  ghost predicate Bait(text: seq<Byte>, parses: seq<Byte> -> bool) {
    && text != [] && parses(text) && Plainly(ShortChecksums.TopByte(text))
    && (|text| == 1 ==> text == [0x31])
    && (|text| > 1 ==> text[0] == QUOTE && AllPlain(text[1..|text| - 1]) && text[|text| - 1] == QUOTE)
  }

  lemma SomeBait(n: nat, parses: seq<Byte> -> bool) returns (text: seq<Byte>)
    requires n > 0 && TakesPlain(parses)
    ensures |text| == n && parses(text) && Bait(text, parses)
  {
    hide ShortChecksums.TopByte;
    if n == 1 {
      text := [0x31];
      ShortChecksums.TopByteOfOne();
    } else if n == 2 {
      text := [0x22, 0x22];
      ShortChecksums.TopByteOfQuotes();
      assert text == PlainText([]);
    } else {
      text := LongBait(n, parses);
    }
  }

  lemma LongBait(n: nat, parses: seq<Byte> -> bool) returns (text: seq<Byte>)
    requires n > 2 && TakesPlain(parses)
    ensures |text| == n && Bait(text, parses)
  {
    hide ShortChecksums.TopByte, TakesPlain;
    var fill: seq<Byte> := seq(n - 3, _ => 0x61);
    var letter := ShortChecksums.TopByteOfText([QUOTE] + fill);
    var body := fill + [letter];
    text := PlainText(body);
    assert text == [QUOTE] + fill + [letter, 0x22];
    assert text[1..n - 1] == body;
    assert PlainAscii(body);
    assert parses(PlainText(body)) by { TakesPlainText(parses, body); }
  }

  lemma TakesPlainText(parses: seq<Byte> -> bool, body: seq<Byte>)
    requires TakesPlain(parses) && PlainAscii(body)
    ensures parses(PlainText(body))
  {
  }

  /** What the burst hides: a string goes on where the document ends. */
  function Patch(n: nat): (patch: seq<Byte>)
    ensures |patch| == 4
  {
    if n == 1 then [QUOTE, 0x61, 0x62, 0xC2]
    else if n == 2 then [0x61, 0x61, 0x61, 0x61]
    else [0x61, 0x61, 0x61, 0xC2]
  }

  /** The magic number, a byte that makes it valid UTF-8, and the rest of the string. */
  function Tail(profile: Profile, size: nat): (tail: seq<Byte>)
    ensures |tail| == size + 6
  {
    PutUint32(profile.Magic()) + [0x80] + seq(size, _ => 0x61) + [QUOTE]
  }

  lemma PatchedIsBurst(head: seq<Byte>, x: seq<Byte>, y: seq<Byte>, tail: seq<Byte>)
    requires |x| == |y| == 4 && x != y
    ensures Burst(head + x + tail, head + y + tail, 8 * |head|)
  {
    ShortChecksums.BitsConcat(head + x, tail);
    ShortChecksums.BitsConcat(head, x);
    ShortChecksums.BitsConcat(head + y, tail);
    ShortChecksums.BitsConcat(head, y);
    assert (head + x + tail)[|head|..|head| + 4] == x && (head + y + tail)[|head|..|head| + 4] == y;
  }

  lemma TailBody(profile: Profile, size: nat)
    ensures var tail := Tail(profile, size);
            tail[|tail| - 1] == QUOTE && AllPlain(tail[..|tail| - 1])
  {
    MagicIsPlain(profile);
    var tail := Tail(profile, size);
    hide PutUint32;
    assert tail[..|tail| - 1] == PutUint32(profile.Magic()) + [0x80] + seq(size, _ => 0x61);
  }

  /** The message: the document cut before its last byte, the patch, the rest of a string. */
  function Message(profile: Profile, text: seq<Byte>, size: nat): seq<Byte>
    requires text != []
  {
    text[..|text| - 1] + Patch(|text|) + ([ShortChecksums.TopByte(text)] + Tail(profile, size))
  }

  /** The message after the burst: the document, its checksum, the magic number. */
  function Damaged(profile: Profile, text: seq<Byte>, size: nat): seq<Byte>
    requires text != []
  {
    text + PutUint32(Crc32.Checksum(text)) + Tail(profile, size)
  }

  lemma MessageIsValue(profile: Profile, parses: seq<Byte> -> bool, text: seq<Byte>, size: nat)
    requires Bait(text, parses)
    ensures ValueText(Message(profile, text, size))
  {
    hide ShortChecksums.TopByte, Tail, ValueText, PlainText;
    var n, top, tail := |text|, ShortChecksums.TopByte(text), Tail(profile, size);
    TailBody(profile, size);
    var rest := [top] + tail[..|tail| - 1];
    var body := if n == 1 then Patch(n)[1..] + rest else text[1..n - 1] + Patch(n) + rest;
    assert AllPlain(rest) && AllPlain(body);
    PlainTextIsValue(body);
    assert Message(profile, text, size) == PlainText(body) by { MessageIsText(profile, text, size, body); }
  }

  lemma MessageIsText(profile: Profile, text: seq<Byte>, size: nat, body: seq<Byte>)
    requires text != [] && (|text| > 1 ==> text[0] == QUOTE)
    requires var tail := Tail(profile, size);
             var rest := [ShortChecksums.TopByte(text)] + tail[..|tail| - 1];
             body == if |text| == 1 then Patch(1)[1..] + rest else text[1..|text| - 1] + Patch(|text|) + rest
    ensures Message(profile, text, size) == PlainText(body)
  {
    hide ShortChecksums.TopByte;
    var n, tail := |text|, Tail(profile, size);
    assert tail == tail[..|tail| - 1] + [QUOTE];
    hide Tail;
    if n > 1 {
      assert text[..n - 1] == [QUOTE] + text[1..n - 1];
    }
  }

  lemma DamageIsBurst(profile: Profile, parses: seq<Byte> -> bool, text: seq<Byte>, size: nat)
    requires Bait(text, parses)
    ensures Burst(Message(profile, text, size), Damaged(profile, text, size), 8 * (|text| - 1))
  {
    var n := |text|;
    var patched := [text[n - 1]] + PutUint32(Crc32.Checksum(text))[..3];
    hide ShortChecksums.TopByte, Tail, Burst, Crc32.Checksum, PutUint32, AllPlain;
    assert Patch(n)[0] != patched[0];
    DamagedSplits(profile, text, size);
    PatchedIsBurst(text[..n - 1], Patch(n), patched, [ShortChecksums.TopByte(text)] + Tail(profile, size));
  }

  lemma DamagedSplits(profile: Profile, text: seq<Byte>, size: nat)
    requires text != []
    ensures Damaged(profile, text, size)
            == text[..|text| - 1] + ([text[|text| - 1]] + PutUint32(Crc32.Checksum(text))[..3])
               + ([ShortChecksums.TopByte(text)] + Tail(profile, size))
  {
    hide ShortChecksums.TopByte, Tail, Crc32.Checksum, PutUint32;
    var n, crc := |text|, PutUint32(Crc32.Checksum(text));
    assert crc == crc[..3] + [ShortChecksums.TopByte(text)] by { TopIsLast(text); }
    assert text == text[..n - 1] + [text[n - 1]];
  }

  lemma TopIsLast(text: seq<Byte>)
    ensures PutUint32(Crc32.Checksum(text))[3] == ShortChecksums.TopByte(text)
  {
  }

  lemma DamageHoldsFooter(profile: Profile, text: seq<Byte>, size: nat)
    requires text != [] && |text| + 10 + size >= TWO_TO_32 && (|text| + 10 + size) % TWO_TO_32 == |text|
    ensures var damaged := Damaged(profile, text, size);
            HoldsFooter(profile, true, damaged) && damaged[..|text|] == text
  {
    var n, damaged := |text|, Damaged(profile, text, size);
    hide Crc32.Checksum, PutUint32, GetUint32;
    assert damaged[..n] == text;
    assert damaged[n..n + 4] == PutUint32(Crc32.Checksum(text));
    assert damaged[n + 4..n + 8] == PutUint32(profile.Magic());
    Uint32RoundTrip(Crc32.Checksum(text), damaged[n..n + 4]);
    Uint32RoundTrip(profile.Magic(), damaged[n..n + 4]);
  }

  /** At every length from 2^32 on, but for the multiples of 2^32, there are a message and a burst that turns it into
      another one. */
  lemma UnsafeLength(profile: Profile, sequence: Uint32, parses: seq<Byte> -> bool, length: nat)
    returns (payload: seq<Byte>, damaged: seq<Byte>, start: nat)
    requires TakesPlain(parses) && length >= TWO_TO_32 && length % TWO_TO_32 != 0
    ensures |payload| == length && ValueText(payload) && Burst(payload, damaged, start)
    ensures Received(profile, sequence, parses, payload, damaged).Ok?
  {
    hide Received, TakesPlain, ValueText, Message, Damaged, Burst, Bait;
    var n := length % TWO_TO_32;
    var text := SomeBait(n, parses);
    var size := length - n - 10;
    payload, damaged, start := Message(profile, text, size), Damaged(profile, text, size), 8 * (n - 1);
    BaitTaken(profile, sequence, parses, text, size);
  }

  lemma BaitTaken(profile: Profile, sequence: Uint32, parses: seq<Byte> -> bool, text: seq<Byte>, size: nat)
    requires text != [] && parses(text) && Bait(text, parses)
    requires |text| + 10 + size >= TWO_TO_32 && (|text| + 10 + size) % TWO_TO_32 == |text|
    ensures
      var payload, damaged := Message(profile, text, size), Damaged(profile, text, size);
      && |payload| == |damaged| == |text| + 10 + size
      && ValueText(payload) && Burst(payload, damaged, 8 * (|text| - 1))
      && Received(profile, sequence, parses, payload, damaged).Ok?
  {
    hide Received, HoldsFooter, ValueText, Message, Damaged, Burst, Bait;
    Sizes(profile, text, size);
    MessageIsValue(profile, parses, text, size);
    DamageIsBurst(profile, parses, text, size);
    DamageHoldsFooter(profile, text, size);
    DamageTaken(profile, sequence, parses, Message(profile, text, size), Damaged(profile, text, size),
                8 * (|text| - 1));
  }

  lemma DamageTaken(profile: Profile, sequence: Uint32, parses: seq<Byte> -> bool, payload: seq<Byte>,
                    damaged: seq<Byte>, start: nat)
    requires Burst(payload, damaged, start)
    requires HoldsFooter(profile, true, damaged) && parses(damaged[..|damaged| % TWO_TO_32])
    ensures Received(profile, sequence, parses, payload, damaged).Ok?
  {
    hide Decode, FrameBytes, HoldsFooter, Overwrite;
    BurstRejected(profile, sequence, parses, payload, damaged, start);
  }

  lemma Sizes(profile: Profile, text: seq<Byte>, size: nat)
    requires text != []
    ensures |Message(profile, text, size)| == |Damaged(profile, text, size)| == |text| + 10 + size
  {
  }

  /** No burst of up to 32 bits on the payload goes unnoticed at exactly the message lengths below 2^32 and the
      multiples of 2^32. */
  lemma BurstsRejectedIffLength(profile: Profile, sequence: Uint32, parses: seq<Byte> -> bool, length: nat)
    requires ReadsJson(parses) && TakesPlain(parses)
    ensures BurstsRejected(profile, sequence, parses, length)
            <==> length < TWO_TO_32 || length % TWO_TO_32 == 0
  {
    hide Received, ValueText, Crc32.DifferWithin, Bits, ReadsJson, TakesPlain;
    if length < TWO_TO_32 || length % TWO_TO_32 == 0 {
      forall payload, damaged, start |
        |payload| == length && ValueText(payload) && Burst(payload, damaged, start)
        ensures |payload| == |damaged| && Received(profile, sequence, parses, payload, damaged).Err?
      {
        SafeLength(profile, sequence, parses, payload, damaged, start);
      }
    } else {
      var payload, damaged, start := UnsafeLength(profile, sequence, parses, length);
    }
  }
}
