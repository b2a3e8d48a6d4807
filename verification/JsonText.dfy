/** The outline of JSON text (RFC 8259), as far as it tells where a value ends. */
module JsonText {
  import opened Bytes

  const QUOTE: Byte := 0x22
  const BACKSLASH: Byte := 0x5C

  predicate Opens(b: Byte) {
    b == 0x5B || b == 0x7B
  }

  predicate Closes(b: Byte) {
    b == 0x5D || b == 0x7D
  }

  predicate White(b: Byte) {
    b == 0x20 || b == 0x09 || b == 0x0A || b == 0x0D
  }

  /** What stands between the parts of an array or object: white space, commas and colons. */
  predicate Between(b: Byte) {
    White(b) || b == 0x2C || b == 0x3A
  }

  /** What numbers and the three literals are made of. */
  predicate Letter(b: Byte) {
    b < 0x80 && b != QUOTE && !Opens(b) && !Closes(b) && !Between(b)
  }

  /** What may stand for itself in a string: no quote, backslash or control character. */
  predicate Plainly(b: Byte) {
    b >= 0x20 && b != QUOTE && b != BACKSLASH
  }

  predicate AllPlain(bytes: seq<Byte>) {
    forall i :: 0 <= i < |bytes| ==> Plainly(bytes[i])
  }

  /** One byte of a string, or a backslash with the byte after it. */
  datatype Unit = Plain(b: Byte) | Escape(b: Byte)

  /** Every JSON value is a word (a number or a literal), a string or a group. Some texts of this shape are no JSON, so
      what holds of all of them holds of JSON. */
  datatype Part = Filler(bytes: seq<Byte>) | Word(bytes: seq<Byte>) | Text(units: seq<Unit>)
                | Group(opening: Byte, parts: seq<Part>, closing: Byte)

  predicate WellFormed(p: Part)
    decreases p
  {
    match p
    case Filler(bytes) => forall i :: 0 <= i < |bytes| ==> Between(bytes[i])
    case Word(bytes) => bytes != [] && forall i :: 0 <= i < |bytes| ==> Letter(bytes[i])
    case Text(units) => forall i :: 0 <= i < |units| && units[i].Plain? ==> Plainly(units[i].b)
    case Group(opening, parts, closing) => Opens(opening) && Closes(closing) && AllWellFormed(parts)
  }

  predicate AllWellFormed(parts: seq<Part>)
    decreases parts
  {
    parts == [] || (WellFormed(parts[0]) && AllWellFormed(parts[1..]))
  }

  function RenderUnits(units: seq<Unit>): seq<Byte> {
    if units == [] then []
    else (if units[0].Plain? then [units[0].b] else [BACKSLASH, units[0].b]) + RenderUnits(units[1..])
  }

  function Render(p: Part): (bytes: seq<Byte>)
    decreases p
  {
    match p
    case Filler(bytes) => bytes
    case Word(bytes) => bytes
    case Text(units) => [QUOTE] + RenderUnits(units) + [QUOTE]
    case Group(opening, parts, closing) => [opening] + RenderAll(parts) + [closing]
  }

  function RenderAll(parts: seq<Part>): seq<Byte>
    decreases parts
  {
    if parts == [] then [] else Render(parts[0]) + RenderAll(parts[1..])
  }

  predicate AllWhite(bytes: seq<Byte>) {
    forall i :: 0 <= i < |bytes| ==> White(bytes[i])
  }

  /** The text of a value, as json.Marshal writes it: nothing around it. */
  ghost predicate ValueText(bytes: seq<Byte>) {
    exists v: Part :: !v.Filler? && WellFormed(v) && bytes == Render(v)
  }

  /** A text json.Unmarshal may take: one value, and white space around it. */
  ghost predicate Document(bytes: seq<Byte>) {
    exists before, value, after ::
      AllWhite(before) && ValueText(value) && AllWhite(after) && bytes == before + value + after
  }

  // ---- a scanner for brackets and strings ----

  datatype Scan = Scan(depth: int, inString: bool, escaped: bool)

  const START := Scan(0, false, false)

  function Next(s: Scan, b: Byte): Scan {
    if s.escaped then s.(escaped := false)
    else if s.inString then
      if b == BACKSLASH then s.(escaped := true) else if b == QUOTE then s.(inString := false) else s
    else if b == QUOTE then s.(inString := true)
    else if Opens(b) then s.(depth := s.depth + 1)
    else if Closes(b) then s.(depth := s.depth - 1)
    else s
  }

  function After(s: Scan, bytes: seq<Byte>): Scan
    decreases |bytes|
  {
    if bytes == [] then s else After(Next(s, bytes[0]), bytes[1..])
  }

  predicate Open(s: Scan) {
    s.depth > 0 || s.inString
  }

  lemma {:induction false} AfterConcat(s: Scan, a: seq<Byte>, b: seq<Byte>)
    ensures After(s, a + b) == After(After(s, a), b)
    decreases |a|
  {
    if a == [] {
      assert a + b == b;
    } else {
      AfterConcat(Next(s, a[0]), a[1..], b);
      assert (a + b)[1..] == a[1..] + b;
    }
  }

  lemma {:induction false} AfterDull(s: Scan, bytes: seq<Byte>)
    requires !s.inString && !s.escaped
    requires forall i :: 0 <= i < |bytes| ==> bytes[i] != QUOTE && !Opens(bytes[i]) && !Closes(bytes[i])
    ensures After(s, bytes) == s
  {
    if bytes != [] {
      AfterDull(s, bytes[1..]);
    }
  }

  /** Inside a string the scanner stays inside, at every point of its body. */
  lemma {:induction false} UnitsStayInside(s: Scan, units: seq<Unit>, k: nat)
    requires s.inString && !s.escaped && WellFormed(Text(units)) && k <= |RenderUnits(units)|
    ensures After(s, RenderUnits(units)) == s
    ensures var t := After(s, RenderUnits(units)[..k]); t.inString && t.depth == s.depth
    decreases |units|
  {
    var body := RenderUnits(units);
    if units == [] {
      assert body[..k] == [];
    } else {
      var first := if units[0].Plain? then [units[0].b] else [BACKSLASH, units[0].b];
      var rest := RenderUnits(units[1..]);
      assert WellFormed(Text(units[1..]));
      FirstUnit(s, units[0], if k <= |first| then k else |first|);
      AfterConcat(s, first, rest);
      if k <= |first| {
        assert body[..k] == first[..k];
        UnitsStayInside(s, units[1..], 0);
      } else {
        assert body[..k] == first + rest[..k - |first|];
        AfterConcat(s, first, rest[..k - |first|]);
        UnitsStayInside(s, units[1..], k - |first|);
      }
    }
  }

  lemma FirstUnit(s: Scan, u: Unit, k: nat)
    requires s.inString && !s.escaped && (u.Plain? ==> Plainly(u.b))
    requires k <= if u.Plain? then 1 else 2
    ensures var first := if u.Plain? then [u.b] else [BACKSLASH, u.b];
            && After(s, first) == s
            && After(s, first[..k]).inString && After(s, first[..k]).depth == s.depth
  {
    var first := if u.Plain? then [u.b] else [BACKSLASH, u.b];
    var second := Next(s, first[0]);
    assert After(s, first) == After(second, first[1..]);
    assert first[1..] == if u.Plain? then [] else [u.b];
    assert [u.b][1..] == [];
    if k == 0 {
      assert first[..k] == [];
    } else if k == |first| {
      assert first[..k] == first;
    } else {
      assert first[..k] == [BACKSLASH];
    }
  }

  /** A part leaves the scanner as it found it, and never below its depth meanwhile. */
  lemma {:induction false} PartStaysAbove(s: Scan, p: Part, k: nat)
    requires !s.inString && !s.escaped && WellFormed(p) && k <= |Render(p)|
    ensures After(s, Render(p)) == s
    ensures After(s, Render(p)[..k]).depth >= s.depth
    decreases p
  {
    match p
    case Filler(bytes) =>
      AfterDull(s, bytes);
      AfterDull(s, bytes[..k]);
    case Word(bytes) =>
      AfterDull(s, bytes);
      AfterDull(s, bytes[..k]);
    case Text(units) => TextStaysAbove(s, units, k);
    case Group(opening, parts, closing) =>
      var inner := s.(depth := s.depth + 1);
      var body := RenderAll(parts);
      PartsStayAbove(inner, parts, if 0 < k <= |body| then k - 1 else 0);
      Framed(s, opening, inner, body, closing, s, k);
      if 0 < k <= |body| {
        assert After(inner, body[..k - 1]).depth >= inner.depth;
      } else if k == |body| + 1 {
        assert body[..k - 1] == body;
      }
  }

  /** The scanner along a framed text. */
  lemma Framed(s: Scan, opening: Byte, inner: Scan, body: seq<Byte>, closing: Byte, end: Scan, k: nat)
    requires Next(s, opening) == inner && After(inner, body) == inner && Next(inner, closing) == end
    requires k <= |body| + 2
    ensures var all := [opening] + body + [closing];
            && After(s, all) == end
            && After(s, all[..k])
               == if k == 0 then s else if k == |body| + 2 then end else After(inner, body[..k - 1])
  {
    var all := [opening] + body + [closing];
    assert all[0] == opening && all[1..] == body + [closing];
    AfterConcat(inner, body, [closing]);
    assert [closing][1..] == [];
    if k == 0 {
      assert all[..k] == [];
    } else if k == |body| + 2 {
      assert all[..k] == all;
    } else {
      assert all[..k][0] == opening && all[..k][1..] == body[..k - 1];
    }
  }

  lemma TextStaysAbove(s: Scan, units: seq<Unit>, k: nat)
    requires !s.inString && !s.escaped && WellFormed(Text(units)) && k <= |RenderUnits(units)| + 2
    ensures After(s, Render(Text(units))) == s
    ensures var t := After(s, Render(Text(units))[..k]);
            t.depth == s.depth && (0 < k < |RenderUnits(units)| + 2 ==> t.inString)
  {
    var inner := s.(inString := true);
    var body := RenderUnits(units);
    UnitsStayInside(inner, units, if 0 < k < |body| + 2 then k - 1 else 0);
    Framed(s, QUOTE, inner, body, QUOTE, s, k);
  }

  lemma {:induction false} PartsStayAbove(s: Scan, parts: seq<Part>, k: nat)
    requires !s.inString && !s.escaped && AllWellFormed(parts) && k <= |RenderAll(parts)|
    ensures After(s, RenderAll(parts)) == s
    ensures After(s, RenderAll(parts)[..k]).depth >= s.depth
    decreases parts
  {
    var all := RenderAll(parts);
    if parts == [] {
      assert all[..k] == [];
    } else {
      var first, rest := Render(parts[0]), RenderAll(parts[1..]);
      PartStaysAbove(s, parts[0], if k <= |first| then k else 0);
      AfterConcat(s, first, rest);
      if k <= |first| {
        assert all[..k] == first[..k];
        PartsStayAbove(s, parts[1..], 0);
      } else {
        assert all[..k] == first + rest[..k - |first|];
        AfterConcat(s, first, rest[..k - |first|]);
        PartsStayAbove(s, parts[1..], k - |first|);
      }
    }
  }

  // ---- where a value ends ----

  lemma GroupPrefixOpen(opening: Byte, parts: seq<Part>, closing: Byte, k: nat)
    requires WellFormed(Group(opening, parts, closing)) && 0 < k <= |RenderAll(parts)| + 1
    ensures Open(After(START, ([opening] + RenderAll(parts) + [closing])[..k]))
  {
    var inner := START.(depth := 1);
    PartsStayAbove(inner, parts, k - 1);
    hide After, RenderAll;
    Framed(START, opening, inner, RenderAll(parts), closing, START, k);
  }

  /** Up to its last byte the text of a string or group is open. */
  lemma ProperPrefixOpen(v: Part, k: nat)
    requires WellFormed(v) && (v.Text? || v.Group?) && 0 < k < |Render(v)|
    ensures Open(After(START, Render(v)[..k]))
  {
    hide After, RenderAll, RenderUnits;
    if v.Text? {
      TextStaysAbove(START, v.units, k);
    } else {
      GroupPrefixOpen(v.opening, v.parts, v.closing, k);
    }
  }

  lemma DocumentClosed(bytes: seq<Byte>)
    requires Document(bytes)
    ensures bytes != [] && !Open(After(START, bytes))
  {
    var before, value, after :|
      AllWhite(before) && ValueText(value) && AllWhite(after) && bytes == before + value + after;
    var v: Part :| !v.Filler? && WellFormed(v) && value == Render(v);
    AfterDull(START, before);
    AfterConcat(START, before + value, after);
    AfterConcat(START, before, value);
    PartStaysAbove(START, v, 0);
    AfterDull(START, after);
    assert |value| > 0;
  }

  /** A proper prefix of a value's text is a document exactly when the value is a word and something is left of it. */
  lemma PrefixDocumentIffWord(v: Part, n: nat)
    requires !v.Filler? && WellFormed(v) && n < |Render(v)|
    ensures Document(Render(v)[..n]) <==> v.Word? && n > 0
  {
    var prefix := Render(v)[..n];
    if v.Word? && n > 0 {
      assert prefix == Render(Word(v.bytes[..n])) && WellFormed(Word(v.bytes[..n]));
      assert prefix == [] + prefix + [];
      assert AllWhite([]) && ValueText(prefix);
    } else if Document(prefix) {
      DocumentClosed(prefix);
      ProperPrefixOpen(v, n);
    }
  }

  /** So only the text of a word, which is plain ASCII, has a document as a proper prefix. */
  lemma PrefixDocumentIsAscii(text: seq<Byte>, n: nat)
    requires ValueText(text) && n < |text| && Document(text[..n])
    ensures forall i :: 0 <= i < |text| ==> text[i] < 0x80
  {
    var v: Part :| !v.Filler? && WellFormed(v) && text == Render(v);
    PrefixDocumentIffWord(v, n);
  }

  /** A string of plain bytes. */
  function PlainText(bytes: seq<Byte>): seq<Byte> {
    [QUOTE] + bytes + [QUOTE]
  }

  lemma {:induction false} PlainUnits(bytes: seq<Byte>) returns (units: seq<Unit>)
    requires AllPlain(bytes)
    ensures RenderUnits(units) == bytes && WellFormed(Text(units))
  {
    units := [];
    if bytes != [] {
      var rest := PlainUnits(bytes[1..]);
      units := [Plain(bytes[0])] + rest;
      assert units[1..] == rest;
      assert RenderUnits(units) == [bytes[0]] + bytes[1..];
    }
  }

  lemma PlainTextIsValue(bytes: seq<Byte>)
    requires AllPlain(bytes)
    ensures ValueText(PlainText(bytes))
  {
    var units := PlainUnits(bytes);
    assert PlainText(bytes) == Render(Text(units));
  }
}
