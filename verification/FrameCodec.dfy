/** The RFCOMM and L2CAP message frames: a 14-byte header, the payload and an 8-byte footer. */
module FrameCodec {
  import opened Bytes
  import opened Wrappers
  import Crc32
  import JsonText

  const HEADER_SIZE := 14
  const FOOTER_SIZE := 8
  const FRAME_OVERHEAD := HEADER_SIZE + FOOTER_SIZE
  const DEFAULT_MTU := 512
  const PROTOCOL_VERSION: Byte := 1
  const MESSAGE_TYPE_DATA: Byte := 0

  /** The two handlers run the same code and differ in these constants only. */
  datatype Profile = RFCOMM | L2CAP {
    function Magic(): Uint32 {
      if RFCOMM? then 0xDEADBEEF else 0xCAFEBABE
    }

    function Flags(): Uint16 {
      if RFCOMM? then 0x0000 else 0x0001
    }
  }

  datatype Header = Header(version: Byte, messageType: Byte, length: Uint32, sequence: Uint32, flags: Uint16,
                           reserved: Uint16)

  datatype Frame = Frame(header: Header, payload: seq<Byte>, checksum: Uint32, magic: Uint32)

  datatype CodecError = MarshalFailed | PayloadTooLarge | TooShort | InvalidLength | ChecksumMismatch | MagicMismatch
                      | NotJson
                      | EmptyMessage | InvalidMtu

  type Result<T> = Wrappers.Result<T, CodecError>

  // ---- the wire format ----

  function HeaderBytes(h: Header): (bytes: seq<Byte>)
    ensures |bytes| == HEADER_SIZE
  {
    [h.version, h.messageType] + PutUint32(h.length) + PutUint32(h.sequence) + PutUint16(h.flags)
    + PutUint16(h.reserved)
  }

  function ParseHeader(bytes: seq<Byte>): Header
    requires |bytes| == HEADER_SIZE
  {
    Header(bytes[0], bytes[1], GetUint32(bytes[2..6]), GetUint32(bytes[6..10]), GetUint16(bytes[10..12]),
           GetUint16(bytes[12..14]))
  }

  function FrameBytes(f: Frame): (bytes: seq<Byte>)
    ensures |bytes| == FRAME_OVERHEAD + |f.payload|
  {
    HeaderBytes(f.header) + f.payload + (PutUint32(f.checksum) + PutUint32(f.magic))
  }

  /** The largest payload the decoder admits; the difference is cut to 32 bits as in the source. */
  function MaxPayload(data: seq<Byte>): Uint32
    requires |data| >= FRAME_OVERHEAD
  {
    (|data| - FRAME_OVERHEAD) % TWO_TO_32
  }

  function ParseFrame(data: seq<Byte>): Result<Frame> {
    if |data| < FRAME_OVERHEAD then Err(TooShort)
    else
      var header := ParseHeader(data[..HEADER_SIZE]);
      if header.length > MaxPayload(data) then Err(InvalidLength)
      else
        var end := HEADER_SIZE + header.length as int;
        assert end + FOOTER_SIZE <= |data|;
        Ok(Frame(header, data[HEADER_SIZE..end], GetUint32(data[end..end + 4]), GetUint32(data[end + 4..end + 8])))
  }

  /** The frames a handler takes, before it reads the payload: the checksum is compared first, then the magic number. */
  function Accept(profile: Profile, checksums: bool, data: seq<Byte>): Result<Frame> {
    var r := ParseFrame(data);
    if r.Err? then r
    else if checksums && r.value.checksum != Crc32.Checksum(r.value.payload) then Err(ChecksumMismatch)
    else if r.value.magic != profile.Magic() then Err(MagicMismatch)
    else r
  }

  /** What a handler delivers; `parses` says of a payload whether json.Unmarshal takes it. */
  function Decode(profile: Profile, checksums: bool, parses: seq<Byte> -> bool, data: seq<Byte>): Result<seq<Byte>> {
    match Accept(profile, checksums, data)
    case Err(e) => Err(e)
    case Ok(frame) => if parses(frame.payload) then Ok(frame.payload) else Err(NotJson)
  }

  /** A JSON reader takes nothing but JSON documents. */
  ghost predicate ReadsJson(parses: seq<Byte> -> bool) {
    forall text :: parses(text) ==> JsonText.Document(text)
  }

  /** The frame built for a payload; its length field is the payload length cut to 32 bits. */
  function MakeFrame(profile: Profile, checksums: bool, sequence: Uint32, payload: seq<Byte>): Frame {
    Frame(Header(PROTOCOL_VERSION, MESSAGE_TYPE_DATA, |payload| % TWO_TO_32, sequence, profile.Flags(), 0), payload,
          if checksums then Crc32.Checksum(payload) else 0, profile.Magic())
  }

  // ---- the handlers ----

  class ProtocolHandler {
    const profile: Profile
    const checksums: bool
    var mtu: int
    var sequence: Uint32

    constructor (profile: Profile, checksums: bool, maxMessageSize: int)
      ensures this.profile == profile && this.checksums == checksums && sequence == 0
      ensures mtu == if maxMessageSize > 0 then maxMessageSize else 512
    {
      this.profile, this.checksums, this.sequence := profile, checksums, 0;
      mtu := DEFAULT_MTU;
      if maxMessageSize > 0 {
        mtu := maxMessageSize;
      }
    }

    method SetMTU(mtu: int) returns (r: Result<()>)
      modifies this`mtu
      ensures r == if mtu <= 0 then Err(InvalidMtu) else Ok(())
      ensures this.mtu == if mtu <= 0 then old(this.mtu) else mtu
    {
      if mtu <= 0 {
        return Err(InvalidMtu);
      }
      this.mtu := mtu;
      return Ok(());
    }

    method EncodeFrame(frame: Frame) returns (buf: seq<Byte>)
      ensures buf == FrameBytes(frame)
    {
      buf := [];
      buf := buf + [frame.header.version, frame.header.messageType];
      buf := buf + PutUint32(frame.header.length);
      buf := buf + PutUint32(frame.header.sequence);
      buf := buf + PutUint16(frame.header.flags);
      buf := buf + PutUint16(frame.header.reserved);
      buf := buf + frame.payload;
      buf := buf + PutUint32(frame.checksum);
      buf := buf + PutUint32(frame.magic);
    }

    /** `marshalled` is the text json.Marshal makes of the message, if it can. */
    method EncodeMessage(marshalled: Option<seq<Byte>>) returns (r: Result<seq<Byte>>)
      modifies this`sequence
      ensures r.Err? <==> marshalled.None? || |marshalled.value| > mtu - 22
      ensures r.Err? ==> r.error == if marshalled.None? then MarshalFailed else PayloadTooLarge
      ensures r.Err? ==> sequence == old(sequence)
      ensures r.Ok? ==> r.value == FrameBytes(MakeFrame(profile, checksums, old(sequence), marshalled.value))
      ensures r.Ok? ==> |r.value| <= mtu && sequence == (old(sequence) + 1) % TWO_TO_32
    {
      if marshalled.None? {
        return Err(MarshalFailed);
      }
      var payload := marshalled.value;
      if |payload| > mtu - FRAME_OVERHEAD {
        return Err(PayloadTooLarge);
      }
      var header := Header(PROTOCOL_VERSION, MESSAGE_TYPE_DATA, |payload| % TWO_TO_32, sequence, profile.Flags(), 0);
      var frame := Frame(header, payload, 0, profile.Magic());
      sequence := (sequence + 1) % TWO_TO_32;
      if checksums {
        frame := frame.(checksum := Crc32.Checksum(payload));
      }
      var data := EncodeFrame(frame);
      return Ok(data);
    }

    method DecodeFrame(data: seq<Byte>) returns (r: Result<Frame>)
      ensures r == ParseFrame(data)
    {
      if |data| < FRAME_OVERHEAD {
        return Err(TooShort);
      }
      var header := ParseHeader(data[..HEADER_SIZE]);
      var pos := HEADER_SIZE;
      if header.length > (|data| - HEADER_SIZE - FOOTER_SIZE) % TWO_TO_32 {
        return Err(InvalidLength);
      }
      var payload := data[pos..pos + header.length];
      pos := pos + header.length;
      var checksum := GetUint32(data[pos..pos + 4]);
      pos := pos + 4;
      var magic := GetUint32(data[pos..pos + 4]);
      return Ok(Frame(header, payload, checksum, magic));
    }

    method DecodeMessage(data: seq<Byte>, parses: seq<Byte> -> bool) returns (r: Result<seq<Byte>>)
      ensures r == Decode(profile, checksums, parses, data)
    {
      var frame := DecodeFrame(data);
      if frame.Err? {
        return Err(frame.error);
      }
      if checksums {
        var expected := Crc32.Checksum(frame.value.payload);
        if frame.value.checksum != expected {
          return Err(ChecksumMismatch);
        }
      }
      if frame.value.magic != profile.Magic() {
        return Err(MagicMismatch);
      }
      if !parses(frame.value.payload) {
        return Err(NotJson);
      }
      return Ok(frame.value.payload);
    }

    method ValidateMessage(data: seq<Byte>) returns (r: Result<()>)
      ensures r.Ok? <==> 0 < |data| <= mtu
      ensures r.Err? ==> r.error == if data == [] then EmptyMessage else PayloadTooLarge
    {
      if |data| == 0 {
        return Err(EmptyMessage);
      }
      if |data| > mtu {
        return Err(PayloadTooLarge);
      }
      return Ok(());
    }
  }

  // ---- decoding undoes encoding ----

  lemma HeaderRoundTrip(h: Header, bytes: seq<Byte>)
    requires |bytes| == HEADER_SIZE
    ensures ParseHeader(HeaderBytes(h)) == h
    ensures HeaderBytes(ParseHeader(bytes)) == bytes
  {
    var b := HeaderBytes(h);
    assert b[2..6] == PutUint32(h.length) && b[6..10] == PutUint32(h.sequence);
    assert b[10..12] == PutUint16(h.flags) && b[12..14] == PutUint16(h.reserved);
    Uint32RoundTrip(h.length, bytes[2..6]);
    Uint32RoundTrip(h.sequence, bytes[6..10]);
    Uint16RoundTrip(h.flags, bytes[10..12]);
    Uint16RoundTrip(h.reserved, bytes[12..14]);
    assert bytes == [bytes[0], bytes[1]] + bytes[2..6] + bytes[6..10] + bytes[10..12] + bytes[12..14];
  }

  /** A frame whose length field is right is read back whole exactly when the length limit, cut to 32 bits, admits it;
      so it always is when fewer than 2^32 bytes of payload and further input arrive together. */
  lemma FrameRoundTrip(f: Frame, rest: seq<Byte>)
    requires f.header.length == |f.payload|
    ensures ParseFrame(FrameBytes(f) + rest)
         == if |f.payload| <= (|f.payload| + |rest|) % TWO_TO_32 then Ok(f) else Err(InvalidLength)
  {
    var data := FrameBytes(f) + rest;
    HeaderRoundTrip(f.header, HeaderBytes(f.header));
    Uint32RoundTrip(f.checksum, PutUint32(f.checksum));
    Uint32RoundTrip(f.magic, PutUint32(f.magic));
    var end := HEADER_SIZE + |f.payload|;
    assert data[..HEADER_SIZE] == HeaderBytes(f.header);
    assert data[HEADER_SIZE..end] == f.payload;
    assert data[end..end + 4] == PutUint32(f.checksum);
    assert data[end + 4..end + 8] == PutUint32(f.magic);
  }

  /** The frame built for a payload shorter than 2^32 bytes is read back whole. */
  lemma ShortFrame(f: Frame)
    requires f.header.length == |f.payload|
    ensures ParseFrame(FrameBytes(f)) == Ok(f)
  {
    FrameRoundTrip(f, []);
    assert FrameBytes(f) + [] == FrameBytes(f);
  }

  /** The frame built for a longer payload is read as far as its cut length field says; the next eight bytes of the
      payload are taken for the footer. */
  lemma LongFrame(f: Frame, n: nat)
    requires |f.payload| >= TWO_TO_32 && f.header.length == n == |f.payload| % TWO_TO_32
    ensures ParseFrame(FrameBytes(f))
         == Ok(Frame(f.header, f.payload[..n], GetUint32(f.payload[n..n + 4]), GetUint32(f.payload[n + 4..n + 8])))
  {
    hide HeaderBytes, ParseHeader, GetUint32;
    var data := FrameBytes(f);
    HeaderRoundTrip(f.header, HeaderBytes(f.header));
    assert data[..HEADER_SIZE] == HeaderBytes(f.header);
    PayloadSlice(f, 0, n);
    PayloadSlice(f, n, n + 4);
    PayloadSlice(f, n + 4, n + 8);
  }

  lemma PayloadSlice(f: Frame, from: nat, to: nat)
    requires from <= to <= |f.payload|
    ensures FrameBytes(f)[HEADER_SIZE + from..HEADER_SIZE + to] == f.payload[from..to]
  {
  }

  /** Encoding again what was decoded reproduces the bytes that were read. */
  lemma ReencodeReproducesInput(data: seq<Byte>)
    requires ParseFrame(data).Ok?
    ensures var f := ParseFrame(data).value;
            |data| >= FRAME_OVERHEAD + f.header.length && FrameBytes(f) == data[..FRAME_OVERHEAD + f.header.length]
  {
    var f := ParseFrame(data).value;
    var end := HEADER_SIZE + f.header.length as int;
    HeaderRoundTrip(f.header, data[..HEADER_SIZE]);
    Uint32RoundTrip(0, data[end..end + 4]);
    Uint32RoundTrip(0, data[end + 4..end + 8]);
    assert data[..end + 8]
        == data[..HEADER_SIZE] + data[HEADER_SIZE..end] + (data[end..end + 4] + data[end + 4..end + 8]);
  }

  // ---- payloads of any length ----

  /** A payload of 2^32 bytes or more that holds a footer where the cut length field points. */
  predicate HoldsFooter(profile: Profile, checksums: bool, payload: seq<Byte>) {
    |payload| >= TWO_TO_32
    && var n := |payload| % TWO_TO_32;
       && (checksums ==> GetUint32(payload[n..n + 4]) == Crc32.Checksum(payload[..n]))
       && GetUint32(payload[n + 4..n + 8]) == profile.Magic()
  }

  /** Of a frame longer than its length field only the part the field tells of is read, if a footer follows it there. */
  lemma LongFrameAccepted(to: Profile, checked: bool, f: Frame)
    requires |f.payload| >= TWO_TO_32 && f.header.length == |f.payload| % TWO_TO_32
    ensures var r := Accept(to, checked, FrameBytes(f));
            && (r.Ok? <==> HoldsFooter(to, checked, f.payload))
            && (r.Ok? ==> r.value.payload == f.payload[..|f.payload| % TWO_TO_32])
  {
    hide FrameBytes, ParseFrame, Crc32.Checksum;
    LongFrame(f, |f.payload| % TWO_TO_32);
  }

  /** The four bytes of either magic number end in one outside ASCII. */
  lemma MagicIsNotAscii(profile: Profile, bytes: seq<Byte>)
    requires |bytes| == 4 && GetUint32(bytes) == profile.Magic()
    ensures bytes[3] >= 0x80
  {
  }

  /** The bytes of either magic number may stand in a string. */
  lemma MagicIsPlain(profile: Profile)
    ensures JsonText.AllPlain(PutUint32(profile.Magic()))
  {
    assert PutUint32(0xDEAD_BEEF) == [0xEF, 0xBE, 0xAD, 0xDE];
    assert PutUint32(0xCAFE_BABE) == [0xBE, 0xBA, 0xFE, 0xCA];
    hide PutUint32;
  }

  /** No JSON text holds a footer behind a part of it that is JSON itself. */
  lemma FooterIsNotBehindJson(profile: Profile, checksums: bool, payload: seq<Byte>)
    requires JsonText.ValueText(payload) && HoldsFooter(profile, checksums, payload)
    ensures !JsonText.Document(payload[..|payload| % TWO_TO_32])
  {
    var n := |payload| % TWO_TO_32;
    hide JsonText.ValueText, JsonText.Document, Crc32.Checksum, GetUint32;
    MagicIsNotAscii(profile, payload[n + 4..n + 8]);
    assert payload[n + 7] >= 0x80;
    if JsonText.Document(payload[..n]) {
      JsonText.PrefixDocumentIsAscii(payload, n);
    }
  }

  /** No frame of 2^32 bytes or more made for a JSON text is delivered, by either handler. */
  lemma LongMessageRejected(to: Profile, checked: bool, parses: seq<Byte> -> bool, f: Frame)
    requires ReadsJson(parses) && JsonText.ValueText(f.payload)
    requires |f.payload| >= TWO_TO_32 && f.header.length == |f.payload| % TWO_TO_32
    ensures Decode(to, checked, parses, FrameBytes(f)).Err?
  {
    hide FrameBytes, Accept, JsonText.ValueText, JsonText.Document, HoldsFooter;
    LongFrameAccepted(to, checked, f);
    if HoldsFooter(to, checked, f.payload) {
      FooterIsNotBehindJson(to, checked, f.payload);
    }
  }

  /** On the frame layer any payload comes back exactly when its length fits the 32-bit length field. */
  lemma FrameLayerRoundTrip(profile: Profile, checksums: bool, sequence: Uint32, payload: seq<Byte>)
    ensures var f := MakeFrame(profile, checksums, sequence, payload);
            var r := Accept(profile, checksums, FrameBytes(f));
            && (|payload| < TWO_TO_32 ==> r == Ok(f))
            && (|payload| >= TWO_TO_32 ==> !(r.Ok? && r.value.payload == payload))
  {
    var f := MakeFrame(profile, checksums, sequence, payload);
    hide FrameBytes, ParseFrame, Crc32.Checksum;
    if |payload| < TWO_TO_32 {
      ShortFrame(f);
    } else {
      LongFrameAccepted(profile, checksums, f);
    }
  }

  /** A message is delivered as it was sent exactly when its text fits the 32-bit length field; a longer one is an
      error, never another message. */
  lemma MessageRoundTrip(profile: Profile, checksums: bool, sequence: Uint32, parses: seq<Byte> -> bool,
                         payload: seq<Byte>)
    requires ReadsJson(parses) && JsonText.ValueText(payload) && parses(payload)
    ensures var r := Decode(profile, checksums, parses, FrameBytes(MakeFrame(profile, checksums, sequence, payload)));
            if |payload| < TWO_TO_32 then r == Ok(payload) else r.Err?
  {
    var f := MakeFrame(profile, checksums, sequence, payload);
    hide FrameBytes, JsonText.ValueText, ReadsJson;
    if |payload| < TWO_TO_32 {
      FrameLayerRoundTrip(profile, checksums, sequence, payload);
    } else {
      LongMessageRejected(profile, checksums, parses, f);
    }
  }

  /** On the frame layer a handler takes a frame the other one encoded exactly when the payload has 2^32 bytes or more
      and itself holds a footer of the taking handler. */
  lemma ForeignFrameOnFrameLayer(from: Profile, to: Profile, sent: bool, checked: bool, sequence: Uint32,
                                 payload: seq<Byte>)
    requires from != to
    ensures Accept(to, checked, FrameBytes(MakeFrame(from, sent, sequence, payload))).Ok?
            <==> HoldsFooter(to, checked, payload)
  {
    hide FrameBytes, ParseFrame, Crc32.Checksum;
    var f := MakeFrame(from, sent, sequence, payload);
    if |payload| < TWO_TO_32 {
      ShortFrame(f);
    } else {
      LongFrameAccepted(to, checked, f);
    }
  }

  /** Neither handler delivers a message the other one encoded, whatever its length. */
  lemma ForeignFrameRejected(from: Profile, to: Profile, sent: bool, checked: bool, sequence: Uint32,
                             parses: seq<Byte> -> bool, payload: seq<Byte>)
    requires from != to && ReadsJson(parses) && JsonText.ValueText(payload)
    ensures Decode(to, checked, parses, FrameBytes(MakeFrame(from, sent, sequence, payload))).Err?
  {
    var f := MakeFrame(from, sent, sequence, payload);
    hide FrameBytes, Accept, JsonText.ValueText, ReadsJson, HoldsFooter;
    if |payload| < TWO_TO_32 {
      ForeignFrameOnFrameLayer(from, to, sent, checked, sequence, payload);
      assert !HoldsFooter(to, checked, payload) by { ShortHoldsNoFooter(to, checked, payload); }
    } else {
      LongMessageRejected(to, checked, parses, f);
    }
  }

  lemma ShortHoldsNoFooter(profile: Profile, checksums: bool, payload: seq<Byte>)
    requires |payload| < TWO_TO_32
    ensures !HoldsFooter(profile, checksums, payload)
  {
  }

  /** It takes the JSON reader to reject them all: without checksums some JSON string holds an RFCOMM footer. */
  lemma SomeTextHoldsFooter() returns (text: seq<Byte>)
    ensures JsonText.ValueText(text) && HoldsFooter(RFCOMM, false, text)
  {
    var tail: seq<Byte> := seq(TWO_TO_32 - 10, _ => 0x61);
    var body: seq<Byte> := [0x61, 0x61, 0x61] + PutUint32(RFCOMM.Magic()) + [0x80] + tail;
    MagicIsPlain(RFCOMM);
    JsonText.PlainTextIsValue(body);
    hide PutUint32, JsonText.ValueText;
    text := JsonText.PlainText(body);
    assert |text| == TWO_TO_32;
    assert text[4..8] == PutUint32(RFCOMM.Magic());
    Uint32RoundTrip(RFCOMM.Magic(), text[4..8]);
  }

  /** The bytes on the wire with the payload region overwritten and everything else as sent. */
  function Overwrite(data: seq<Byte>, damaged: seq<Byte>): seq<Byte>
    requires |data| == FRAME_OVERHEAD + |damaged|
  {
    data[..HEADER_SIZE] + damaged + data[HEADER_SIZE + |damaged|..]
  }

  lemma OverwriteFrame(f: Frame, damaged: seq<Byte>)
    requires |damaged| == |f.payload|
    ensures Overwrite(FrameBytes(f), damaged) == FrameBytes(f.(payload := damaged))
  {
    var data := FrameBytes(f);
    assert data[..HEADER_SIZE] == HeaderBytes(f.header);
    assert data[HEADER_SIZE + |damaged|..] == PutUint32(f.checksum) + PutUint32(f.magic);
  }

  lemma WrongChecksumRejected(profile: Profile, f: Frame)
    requires f.header.length == |f.payload| && f.checksum != Crc32.Checksum(f.payload)
    ensures Accept(profile, true, FrameBytes(f)) == Err(ChecksumMismatch)
  {
    ShortFrame(f);
  }

  /** With checksums on, a frame whose payload suffered a burst of at most 32 bits is rejected for its checksum, at
      every length below 2^32; beyond, it is delivered exactly when the damaged payload holds a footer behind a part
      that is read as JSON. */
  lemma BurstRejected(profile: Profile, sequence: Uint32, parses: seq<Byte> -> bool, payload: seq<Byte>,
                      damaged: seq<Byte>, start: nat)
    requires |payload| == |damaged|
    requires damaged != payload && Crc32.DifferWithin(Bits(payload), Bits(damaged), start, 32)
    ensures var data := Overwrite(FrameBytes(MakeFrame(profile, true, sequence, payload)), damaged);
            var r := Decode(profile, true, parses, data);
            && (|payload| < TWO_TO_32 ==> r == Err(ChecksumMismatch))
            && (r.Ok? <==> HoldsFooter(profile, true, damaged) && parses(damaged[..|damaged| % TWO_TO_32]))
  {
    var f := MakeFrame(profile, true, sequence, payload);
    hide Crc32.Checksum, Crc32.DifferWithin, Bits, FrameBytes, Overwrite, Accept, HoldsFooter;
    var g := f.(payload := damaged);
    OverwriteFrame(f, damaged);
    if |payload| < TWO_TO_32 {
      assert Crc32.Checksum(payload) != Crc32.Checksum(damaged) by {
        Crc32.BurstChanges(payload, damaged, start);
      }
      WrongChecksumRejected(profile, g);
      ShortHoldsNoFooter(profile, true, damaged);
    } else {
      LongFrameAccepted(profile, true, g);
    }
  }
}
