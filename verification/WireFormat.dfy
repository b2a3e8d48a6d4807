/** The bytes of a frame, place by place, and two frames written out. */
module WireFormat {
  import opened Bytes
  import opened FrameCodec
  import opened Wrappers
  import Crc32
  import ReflectedCrc

  lemma PutIsLittle(n: Uint32)
    ensures var b := PutUint32(n);
            b[0] as int + 0x100 * b[1] as int + 0x1_0000 * b[2] as int + 0x100_0000 * b[3] as int == n
  {
    Uint32FromBytes(n);
    hide PutUint32;
  }

  lemma MagicBytes()
    ensures PutUint32(0xDEAD_BEEF) == [0xEF, 0xBE, 0xAD, 0xDE]
    ensures PutUint32(0xCAFE_BABE) == [0xBE, 0xBA, 0xFE, 0xCA]
  {
  }

  /** What a handler puts on the wire: version 1, type 0, the payload's length modulo 2^32, the sequence number, flags 0
      for RFCOMM and 1 for L2CAP, two zero bytes, the payload, its checksum or zero, and the magic number. */
  lemma FrameLayout(profile: Profile, checksums: bool, sequence: Uint32, payload: seq<Byte>)
    ensures
      var b, n := FrameBytes(MakeFrame(profile, checksums, sequence, payload)), 14 + |payload|;
      && |b| == n + 8 && b[0] == 1 && b[1] == 0
      && b[2] as int + 0x100 * b[3] as int + 0x1_0000 * b[4] as int + 0x100_0000 * b[5] as int
         == |payload| % 0x1_0000_0000
      && b[6] as int + 0x100 * b[7] as int + 0x1_0000 * b[8] as int + 0x100_0000 * b[9] as int == sequence
      && b[10] == (if profile == RFCOMM then 0 else 1) && b[11] == 0 && b[12] == 0 && b[13] == 0
      && b[14..n] == payload
      && b[n] as int + 0x100 * b[n + 1] as int + 0x1_0000 * b[n + 2] as int + 0x100_0000 * b[n + 3] as int
         == (if checksums then Crc32.Checksum(payload) else 0)
      && b[n + 4..] == if profile == RFCOMM then [0xEF, 0xBE, 0xAD, 0xDE] else [0xBE, 0xBA, 0xFE, 0xCA]
  {
    var f := MakeFrame(profile, checksums, sequence, payload);
    var b, n := FrameBytes(f), 14 + |payload|;
    PutIsLittle(f.header.length);
    PutIsLittle(f.header.sequence);
    PutIsLittle(f.checksum);
    MagicBytes();
    hide PutUint32;
    assert b[2..6] == PutUint32(f.header.length) && b[6..10] == PutUint32(f.header.sequence);
    assert b[n..n + 4] == PutUint32(f.checksum) && b[n + 4..] == PutUint32(f.magic);
  }

  /** What a handler makes of any bytes, in the order it looks: too short, too long a payload announced, checksum, magic
      number, JSON. */
  lemma DecodesInOrder(profile: Profile, checksums: bool, parses: seq<Byte> -> bool, b: seq<Byte>)
    ensures |b| < 22 ==> Decode(profile, checksums, parses, b) == Err(TooShort)
    ensures |b| >= 22 ==>
      var n := b[2] as int + 0x100 * b[3] as int + 0x1_0000 * b[4] as int + 0x100_0000 * b[5] as int;
      if n > (|b| - 22) % 0x1_0000_0000 then Decode(profile, checksums, parses, b) == Err(InvalidLength)
      else
        && 22 + n <= |b|
        && var payload := b[14..14 + n];
           var checksum := b[14 + n] as int + 0x100 * b[15 + n] as int + 0x1_0000 * b[16 + n] as int
                           + 0x100_0000 * b[17 + n] as int;
           var magic: seq<Byte> := if profile == RFCOMM then [0xEF, 0xBE, 0xAD, 0xDE] else [0xBE, 0xBA, 0xFE, 0xCA];
           Decode(profile, checksums, parses, b)
           == if checksums && checksum != Crc32.Checksum(payload) then Err(ChecksumMismatch)
              else if b[18 + n..22 + n] != magic then Err(MagicMismatch)
              else if !parses(payload) then Err(NotJson)
              else Ok(payload)
  {
    hide ParseHeader, GetUint32, Crc32.Checksum;
    if |b| >= 22 {
      HeaderLength(b);
      var n := ParseHeader(b[..14]).length as int;
      if n <= (|b| - 22) % 0x1_0000_0000 {
        MagicIsBytes(profile, b[18 + n..22 + n]);
        GetIsLittle(b[14 + n..18 + n]);
      }
    }
  }

  lemma GetIsLittle(b: seq<Byte>)
    requires |b| == 4
    ensures GetUint32(b) == b[0] as int + 0x100 * b[1] as int + 0x1_0000 * b[2] as int + 0x100_0000 * b[3] as int
  {
  }

  lemma HeaderLength(b: seq<Byte>)
    requires |b| >= 22
    ensures ParseHeader(b[..14]).length
         == b[2] as int + 0x100 * b[3] as int + 0x1_0000 * b[4] as int + 0x100_0000 * b[5] as int
  {
    assert b[..14][2..6] == b[2..6];
    GetIsLittle(b[2..6]);
    hide GetUint32;
  }

  lemma MagicIsBytes(profile: Profile, b: seq<Byte>)
    requires |b| == 4
    ensures GetUint32(b) == profile.Magic()
            <==> b == if profile == RFCOMM then [0xEF, 0xBE, 0xAD, 0xDE] else [0xBE, 0xBA, 0xFE, 0xCA]
  {
    MagicBytes();
    Uint32RoundTrip(profile.Magic(), b);
    hide GetUint32, PutUint32;
  }

  lemma SmallNumbers()
    ensures PutUint32(1) == [1, 0, 0, 0] && PutUint32(7) == [7, 0, 0, 0]
    ensures PutUint16(0) == [0, 0] && PutUint16(1) == [1, 0]
    ensures PutUint32(0x83DC_EFB7) == [0xB7, 0xEF, 0xDC, 0x83]
  {
  }

  lemma HeaderOfOne(flags: Uint16)
    requires flags <= 1
    ensures HeaderBytes(Header(1, 0, 1, 7, flags, 0)) == [1, 0, 1, 0, 0, 0, 7, 0, 0, 0, flags, 0, 0, 0]
  {
    SmallNumbers();
    hide PutUint32, PutUint16;
  }

  /** The message 1, sent by either handler as its eighth one with checksums on. */
  lemma FramesOfOne()
    ensures FrameBytes(MakeFrame(RFCOMM, true, 7, [0x31]))
         == [1, 0, 1, 0, 0, 0, 7, 0, 0, 0, 0, 0, 0, 0] + [0x31] + [0xB7, 0xEF, 0xDC, 0x83] + [0xEF, 0xBE, 0xAD, 0xDE]
    ensures FrameBytes(MakeFrame(L2CAP, true, 7, [0x31]))
         == [1, 0, 1, 0, 0, 0, 7, 0, 0, 0, 1, 0, 0, 0] + [0x31] + [0xB7, 0xEF, 0xDC, 0x83] + [0xBE, 0xBA, 0xFE, 0xCA]
  {
    hide Crc32.Checksum, PutUint32, HeaderBytes;
    ReflectedCrc.ChecksumOfOne();
    MagicBytes();
    SmallNumbers();
    HeaderOfOne(0);
    HeaderOfOne(1);
  }
}
