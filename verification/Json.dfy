/** The bounded JSON reader at the browser boundary and the escaping of the text sent back through it. */
module Json {
  import opened Bytes
  import opened Wire

  const MAX_JSON: nat := 128 * 1024
  const MAX_DEPTH: nat := 16
  const MAX_MEMBERS: nat := 256
  const MAX_STRING: nat := 64 * 1024

  const QUOTE: byte := 0x22
  const BACKSLASH: byte := 0x5c
  const LETTER_U: byte := 0x75

  datatype Member = Member(key: seq<byte>, value: Json)

  datatype Json =
    | Null
    | Boolean(value: bool)
    | Number(text: seq<byte>)
    | String(text: seq<byte>)
    | Object(members: seq<Member>)
    | Array(elements: seq<Json>)

  // ---- characters ----

  /** The C locale's white space, which is wider than JSON's. */
  predicate IsSpace(b: byte) {
    b == 0x20 || 9 <= b <= 13
  }

  predicate IsDigit(b: byte) {
    0x30 <= b <= 0x39
  }

  function HexDigit(b: byte): Option<nat> {
    if IsDigit(b) then Some(b - 0x30)
    else if 0x61 <= b <= 0x66 then Some(b - 0x61 + 10)
    else if 0x41 <= b <= 0x46 then Some(b - 0x41 + 10)
    else None
  }

  /** UTF-8 of a code point, surrogates included. */
  function Utf8(c: nat): (s: seq<byte>)
    requires c <= 0xffff
    ensures 1 <= |s| <= 3
  {
    if c <= 0x7f then [c]
    else if c <= 0x7ff then [0xc0 + c / 0x40, 0x80 + c % 0x40]
    else [0xe0 + c / 0x1000, 0x80 + c / 0x40 % 0x40, 0x80 + c % 0x40]
  }

  function Unescape(e: byte): Option<byte> {
    if e == 0x22 then Some(0x22)        // "
    else if e == 0x5c then Some(0x5c)   // \
    else if e == 0x2f then Some(0x2f)   // /
    else if e == 0x62 then Some(8)      // b
    else if e == 0x66 then Some(12)     // f
    else if e == 0x6e then Some(10)     // n
    else if e == 0x72 then Some(13)     // r
    else if e == 0x74 then Some(9)      // t
    else None
  }

  function HexValue(s: seq<byte>): (v: Option<nat>)
    requires |s| == 4
    ensures v.Some? ==> v.value <= 0xffff
  {
    var a, b, c, d := HexDigit(s[0]), HexDigit(s[1]), HexDigit(s[2]), HexDigit(s[3]);
    if a.None? || b.None? || c.None? || d.None? then None
    else Some(0x1000 * a.value + 0x100 * b.value + 0x10 * c.value + d.value)
  }

  // ---- the reader as functions of the remaining input ----

  function SkipSpace(s: seq<byte>): (r: seq<byte>)
    ensures |r| <= |s|
  {
    if s != [] && IsSpace(s[0]) then SkipSpace(s[1..]) else s
  }

  /** One escape sequence after its backslash: the bytes it stands for. */
  function ReadEscape(s: seq<byte>): (p: Parsed<seq<byte>>)
    ensures p.Parsed? ==> |p.rest| < |s|
  {
    if s == [] then Malformed
    else if s[0] == LETTER_U then
      if |s| < 5 || HexValue(s[1..5]).None? then Malformed
      else Parsed(Utf8(HexValue(s[1..5]).value), s[5..])
    else
      match Unescape(s[0])
      case None => Malformed
      case Some(b) => Parsed([b], s[1..])
  }

  /** A string after its opening quote, `out` being the text read so far. */
  function ReadChars(s: seq<byte>, out: seq<byte>): (p: Parsed<seq<byte>>)
    ensures p.Parsed? ==> |p.rest| < |s|
    decreases |s|
  {
    if s == [] then Malformed
    else if s[0] == QUOTE then if |out| <= MAX_STRING && ValidUtf8(out) then Parsed(out, s[1..]) else Malformed
    else if s[0] < 0x20 then Malformed
    else if s[0] != BACKSLASH then
      if |out| + 1 > MAX_STRING then Malformed else ReadChars(s[1..], out + [s[0]])
    else
      var e := ReadEscape(s[1..]);
      if e.Malformed? || |out| + |e.value| > MAX_STRING then Malformed else ReadChars(e.rest, out + e.value)
  }

  function ReadString(s: seq<byte>): (p: Parsed<seq<byte>>)
    ensures p.Parsed? ==> |p.rest| < |s|
  {
    if s == [] || s[0] != QUOTE then Malformed else ReadChars(s[1..], [])
  }

  function Digits(s: seq<byte>): (n: nat)
    ensures n <= |s| && forall i :: 0 <= i < n ==> IsDigit(s[i])
    ensures n < |s| ==> !IsDigit(s[n])
  {
    if s != [] && IsDigit(s[0]) then 1 + Digits(s[1..]) else 0
  }

  /** Length of the integer part with its sign, 0 when there is none. */
  function IntegerLength(s: seq<byte>): (n: nat)
    ensures n <= |s|
  {
    var sign := if s != [] && s[0] == 0x2d then 1 else 0;
    var t := s[sign..];
    if t == [] then 0
    else if t[0] == 0x30 then sign + 1
    else if Digits(t) == 0 then 0
    else sign + Digits(t)
  }

  /** Length of a fraction at the front, None when a point is not followed by a digit. */
  function FractionLength(s: seq<byte>): (n: Option<nat>)
    ensures n.Some? ==> n.value <= |s|
  {
    if s == [] || s[0] != 0x2e then Some(0)
    else if Digits(s[1..]) == 0 then None
    else Some(1 + Digits(s[1..]))
  }

  function ExponentLength(s: seq<byte>): (n: Option<nat>)
    ensures n.Some? ==> n.value <= |s|
  {
    if s == [] || (s[0] != 0x65 && s[0] != 0x45) then Some(0)
    else
      var sign := if |s| > 1 && (s[1] == 0x2b || s[1] == 0x2d) then 1 else 0;
      if Digits(s[1 + sign..]) == 0 then None else Some(1 + sign + Digits(s[1 + sign..]))
  }

  function ReadNumber(s: seq<byte>): (p: Parsed<seq<byte>>)
    ensures p.Parsed? ==> |p.rest| < |s| && p.value + p.rest == s
  {
    var i := IntegerLength(s);
    if i == 0 then Malformed
    else
      var f := FractionLength(s[i..]);
      if f.None? then Malformed
      else
        var e := ExponentLength(s[i + f.value..]);
        if e.None? then Malformed else Parsed(s[..i + f.value + e.value], s[i + f.value + e.value..])
  }

  const TRUE_WORD: seq<byte> := [0x74, 0x72, 0x75, 0x65]
  const FALSE_WORD: seq<byte> := [0x66, 0x61, 0x6c, 0x73, 0x65]
  const NULL_WORD: seq<byte> := [0x6e, 0x75, 0x6c, 0x6c]

  function ReadWord(s: seq<byte>, word: seq<byte>, v: Json): (p: Parsed<Json>)
    requires word != []
    ensures p.Parsed? ==> |p.rest| < |s|
  {
    if word <= s then Parsed(v, s[|word|..]) else Malformed
  }

  function ReadValue(s: seq<byte>, depth: nat): (p: Parsed<Json>)
    ensures p.Parsed? ==> |p.rest| < |s|
    decreases |s|, 2
  {
    var t := SkipSpace(s);
    if depth > MAX_DEPTH || t == [] then Malformed
    else if t[0] == 0x7b then
      var u := SkipSpace(t[1..]);
      if u != [] && u[0] == 0x7d then Parsed(Object([]), u[1..]) else ReadMembers(u, depth + 1, [])
    else if t[0] == 0x5b then
      var u := SkipSpace(t[1..]);
      if u != [] && u[0] == 0x5d then Parsed(Array([]), u[1..]) else ReadElements(u, depth + 1, [])
    else if t[0] == QUOTE then
      match ReadString(t)
      case Malformed => Malformed
      case Parsed(text, rest) => Parsed(String(text), rest)
    else if t[0] == 0x74 then ReadWord(t, TRUE_WORD, Boolean(true))
    else if t[0] == 0x66 then ReadWord(t, FALSE_WORD, Boolean(false))
    else if t[0] == 0x6e then ReadWord(t, NULL_WORD, Null)
    else
      match ReadNumber(t)
      case Malformed => Malformed
      case Parsed(text, rest) => Parsed(Number(text), rest)
  }

  predicate HasKey(members: seq<Member>, key: seq<byte>) {
    exists i :: 0 <= i < |members| && members[i].key == key
  }

  function ReadMember(s: seq<byte>, depth: nat): (p: Parsed<Member>)
    ensures p.Parsed? ==> |p.rest| < |s|
    decreases |s|, 0
  {
    var key := ReadString(s);
    if key.Malformed? then Malformed
    else
      var colon := SkipSpace(key.rest);
      if colon == [] || colon[0] != 0x3a then Malformed
      else
        match ReadValue(colon[1..], depth)
        case Malformed => Malformed
        case Parsed(child, rest) => Parsed(Member(key.value, child), rest)
  }

  /** The members of an object from the next key on. */
  function ReadMembers(s: seq<byte>, depth: nat, members: seq<Member>): (p: Parsed<Json>)
    ensures p.Parsed? ==> |p.rest| < |s|
    decreases |s|, 1
  {
    if |members| >= MAX_MEMBERS then Malformed
    else
      var member := ReadMember(s, depth);
      if member.Malformed? || HasKey(members, member.value.key) then Malformed
      else
        var grown := members + [member.value];
        var next := SkipSpace(member.rest);
        if next == [] then Malformed
        else if next[0] == 0x7d then Parsed(Object(grown), next[1..])
        else if next[0] != 0x2c then Malformed
        else ReadMembers(SkipSpace(next[1..]), depth, grown)
  }

  function ReadElements(s: seq<byte>, depth: nat, elements: seq<Json>): (p: Parsed<Json>)
    ensures p.Parsed? ==> |p.rest| < |s|
    decreases |s|, 3
  {
    if s == [] || |elements| >= MAX_MEMBERS then Malformed
    else
      var child := ReadValue(s, depth);
      if child.Malformed? then Malformed
      else
        var grown := elements + [child.value];
        var next := SkipSpace(child.rest);
        if next == [] then Malformed
        else if next[0] == 0x5d then Parsed(Array(grown), next[1..])
        else if next[0] != 0x2c then Malformed
        else ReadElements(SkipSpace(next[1..]), depth, grown)
  }

  function Parse(input: seq<byte>): Option<Json> {
    if |input| > MAX_JSON then None
    else
      match ReadValue(input, 0)
      case Malformed => None
      case Parsed(v, rest) => if SkipSpace(rest) == [] then Some(v) else None
  }

  // ---- what the reader accepts ----

  predicate TextOk(t: seq<byte>) {
    |t| <= MAX_STRING && ValidUtf8(t)
  }

  ghost predicate DistinctKeys(members: seq<Member>) {
    forall i, j :: 0 <= i < j < |members| ==> members[i].key != members[j].key
  }

  /** At most `levels` nested containers, bounded in width, with bounded valid texts and no key twice. */
  ghost predicate Bounded(v: Json, levels: nat) {
    match v
    case String(text) => TextOk(text)
    case Object(members) =>
      levels > 0 && |members| <= MAX_MEMBERS && DistinctKeys(members) &&
      forall m :: m in members ==> TextOk(m.key) && Bounded(m.value, levels - 1)
    case Array(elements) =>
      levels > 0 && |elements| <= MAX_MEMBERS && forall e :: e in elements ==> Bounded(e, levels - 1)
    case _ => true
  }

  lemma {:induction false} CharsOk(s: seq<byte>, out: seq<byte>)
    ensures ReadChars(s, out).Parsed? ==> TextOk(ReadChars(s, out).value) && out <= ReadChars(s, out).value
    decreases |s|
  {
    hide ValidUtf8, ReadEscape;
    if s != [] && s[0] != QUOTE {
      if s[0] != BACKSLASH {
        CharsOk(s[1..], out + [s[0]]);
      } else {
        var e := ReadEscape(s[1..]);
        if e.Parsed? {
          CharsOk(e.rest, out + e.value);
        }
      }
    }
  }

  lemma {:induction false} ValueBounded(s: seq<byte>, depth: nat)
    ensures ReadValue(s, depth).Parsed? ==>
              depth <= MAX_DEPTH && Bounded(ReadValue(s, depth).value, MAX_DEPTH + 1 - depth)
    decreases |s|, 2
  {
    hide ReadChars, TextOk, ReadNumber, ReadMembers, ReadElements;
    var t := SkipSpace(s);
    if depth <= MAX_DEPTH && t != [] {
      if t[0] == 0x7b {
        MembersBounded(SkipSpace(t[1..]), depth + 1, []);
      } else if t[0] == 0x5b {
        ElementsBounded(SkipSpace(t[1..]), depth + 1, []);
      } else if t[0] == QUOTE {
        CharsOk(t[1..], []);
      }
    }
  }

  lemma {:induction false} MemberBounded(s: seq<byte>, depth: nat)
    requires 1 <= depth <= MAX_DEPTH + 1
    ensures var m := ReadMember(s, depth);
            m.Parsed? ==> TextOk(m.value.key) && Bounded(m.value.value, MAX_DEPTH + 1 - depth)
    decreases |s|, 0
  {
    hide ReadChars, TextOk, ReadValue, Bounded;
    var key := ReadString(s);
    if key.Parsed? {
      CharsOk(s[1..], []);
      var colon := SkipSpace(key.rest);
      if colon != [] && colon[0] == 0x3a {
        ValueBounded(colon[1..], depth);
      }
    }
  }

  lemma {:induction false} MembersBounded(s: seq<byte>, depth: nat, members: seq<Member>)
    requires 1 <= depth <= MAX_DEPTH + 1 && |members| <= MAX_MEMBERS && DistinctKeys(members)
    requires forall m :: m in members ==> TextOk(m.key) && Bounded(m.value, MAX_DEPTH + 1 - depth)
    ensures ReadMembers(s, depth, members).Parsed? ==>
              Bounded(ReadMembers(s, depth, members).value, MAX_DEPTH + 2 - depth)
    decreases |s|, 1
  {
    hide ReadMember, TextOk, Bounded;
    if |members| < MAX_MEMBERS {
      var member := ReadMember(s, depth);
      if member.Parsed? && !HasKey(members, member.value.key) {
        MemberBounded(s, depth);
        var grown := members + [member.value];
        assert DistinctKeys(grown);
        ObjectBounded(grown, MAX_DEPTH + 2 - depth);
        var next := SkipSpace(member.rest);
        if next != [] && next[0] == 0x2c {
          MembersBounded(SkipSpace(next[1..]), depth, grown);
        }
      }
    }
  }

  lemma ObjectBounded(members: seq<Member>, levels: nat)
    requires levels > 0 && |members| <= MAX_MEMBERS && DistinctKeys(members)
    requires forall m :: m in members ==> TextOk(m.key) && Bounded(m.value, levels - 1)
    ensures Bounded(Object(members), levels)
  {
  }

  lemma {:induction false} ElementsBounded(s: seq<byte>, depth: nat, elements: seq<Json>)
    requires 1 <= depth <= MAX_DEPTH + 1 && |elements| <= MAX_MEMBERS
    requires forall e :: e in elements ==> Bounded(e, MAX_DEPTH + 1 - depth)
    ensures ReadElements(s, depth, elements).Parsed? ==>
              Bounded(ReadElements(s, depth, elements).value, MAX_DEPTH + 2 - depth)
    decreases |s|, 3
  {
    hide ReadValue, Bounded;
    if s != [] && |elements| < MAX_MEMBERS {
      var child := ReadValue(s, depth);
      if child.Parsed? {
        ValueBounded(s, depth);
        var grown := elements + [child.value];
        ArrayBounded(grown, MAX_DEPTH + 2 - depth);
        var next := SkipSpace(child.rest);
        if next != [] && next[0] == 0x2c {
          ElementsBounded(SkipSpace(next[1..]), depth, grown);
        }
      }
    }
  }

  lemma ArrayBounded(elements: seq<Json>, levels: nat)
    requires levels > 0 && |elements| <= MAX_MEMBERS
    requires forall e :: e in elements ==> Bounded(e, levels - 1)
    ensures Bounded(Array(elements), levels)
  {
  }

  /** Every accepted message has at most 17 nested containers, distinct keys and bounded, valid texts. */
  lemma AcceptedIsBounded(input: seq<byte>)
    ensures Parse(input).Some? ==> Bounded(Parse(input).value, MAX_DEPTH + 1)
  {
    hide ReadValue;
    ValueBounded(input, 0);
  }

  // ---- white space ----

  /** The white space of section 2 of RFC 8259. */
  predicate JsonSpace(b: byte) {
    b == 0x20 || b == 9 || b == 10 || b == 13
  }

  /** The reader skips JSON's white space, and besides it exactly the vertical tab and the form feed. */
  lemma SkippedBeyondJson(b: byte)
    ensures SkipSpace([b]) == [] <==> JsonSpace(b) || b == 11 || b == 12
  {
    assert [b][1..] == [];
  }

  /** Every byte the reader skips may stand before any message, those two included. */
  lemma LeadingSpaceIgnored(b: byte, s: seq<byte>)
    requires IsSpace(b) && |s| < MAX_JSON
    ensures Parse([b] + s) == Parse(s)
  {
    hide ReadMembers, ReadElements, ReadString, ReadNumber, ReadWord, IsSpace;
    assert ([b] + s)[1..] == s;
    assert SkipSpace([b] + s) == SkipSpace(s);
  }

  /** Two accepted messages that are not JSON. */
  lemma VerticalTabAccepted()
    ensures Parse([11] + NULL_WORD) == Some(Null) && Parse([12] + NULL_WORD) == Some(Null)
  {
    LeadingSpaceIgnored(11, NULL_WORD);
    LeadingSpaceIgnored(12, NULL_WORD);
    assert SkipSpace(NULL_WORD) == NULL_WORD;
    assert NULL_WORD[|NULL_WORD|..] == [];
  }

  // ---- escaping ----

  function HexByte(n: nat): byte
    requires n < 16
  {
    if n < 10 then 0x30 + n else 0x61 + n - 10
  }

  function EscapeByte(b: byte): seq<byte> {
    if b == 0x22 then [BACKSLASH, 0x22]
    else if b == 0x5c then [BACKSLASH, 0x5c]
    else if b == 8 then [BACKSLASH, 0x62]
    else if b == 12 then [BACKSLASH, 0x66]
    else if b == 10 then [BACKSLASH, 0x6e]
    else if b == 13 then [BACKSLASH, 0x72]
    else if b == 9 then [BACKSLASH, 0x74]
    else if b < 0x20 then [BACKSLASH, LETTER_U, 0x30, 0x30, HexByte(b / 16), HexByte(b % 16)]
    else [b]
  }

  function Escape(s: seq<byte>): seq<byte> {
    if s == [] then [] else EscapeByte(s[0]) + Escape(s[1..])
  }

  function Quoted(s: seq<byte>): seq<byte> {
    [QUOTE] + Escape(s) + [QUOTE]
  }

  lemma HexDigitOfByte(n: nat)
    requires n < 16
    ensures HexDigit(HexByte(n)) == Some(n)
  {
  }

  /** The reader takes a \\u escape to the UTF-8 of its code point. */
  lemma UnicodeReads(hex: seq<byte>, rest: seq<byte>)
    requires |hex| == 4 && HexValue(hex).Some?
    ensures ReadEscape([LETTER_U] + (hex + rest)) == Parsed(Utf8(HexValue(hex).value), rest)
  {
    hide HexValue, Utf8;
    var tail := hex + rest;
    var s := [LETTER_U] + tail;
    assert tail[..4] == hex && tail[4..] == rest;
    assert s[1..] == tail;
    assert s[1..5] == tail[..4] && s[5..] == tail[4..];
  }

  lemma ControlReads(b: byte, rest: seq<byte>)
    requires b < 0x20
    ensures ReadEscape([LETTER_U] + ([0x30, 0x30, HexByte(b / 16), HexByte(b % 16)] + rest)) == Parsed([b], rest)
  {
    hide HexByte, HexDigit;
    HexDigitOfByte(b / 16);
    HexDigitOfByte(b % 16);
    ZeroDigit();
    var hex := [0x30, 0x30, HexByte(b / 16), HexByte(b % 16)];
    assert HexValue(hex) == Some(b as nat);
    hide HexValue;
    UnicodeReads(hex, rest);
  }

  lemma ZeroDigit()
    ensures HexDigit(0x30) == Some(0)
  {
  }

  /** The reader takes one escape sequence back to its byte. */
  lemma EscapeSequenceReads(b: byte, rest: seq<byte>)
    requires EscapeByte(b)[0] == BACKSLASH
    ensures ReadEscape(EscapeByte(b)[1..] + rest) == Parsed([b], rest)
  {
    hide HexValue, HexByte;
    var t := EscapeByte(b)[1..] + rest;
    if |EscapeByte(b)| == 2 {
      assert t[1..] == rest;
    } else {
      ControlReads(b, rest);
      assert t == [LETTER_U] + ([0x30, 0x30, HexByte(b / 16), HexByte(b % 16)] + rest);
    }
  }

  /** The reader takes one escaped byte back to that byte. */
  lemma EscapeByteReads(b: byte, rest: seq<byte>, out: seq<byte>)
    requires |out| + 1 <= MAX_STRING
    ensures ReadChars(EscapeByte(b) + rest, out) == ReadChars(rest, out + [b])
  {
    hide ValidUtf8, ReadEscape, HexByte;
    var s := EscapeByte(b) + rest;
    assert s[1..] == EscapeByte(b)[1..] + rest;
    if EscapeByte(b)[0] == BACKSLASH {
      EscapeSequenceReads(b, rest);
    } else {
      assert EscapeByte(b)[1..] + rest == rest;
    }
  }

  lemma ClosingQuoteReads(out: seq<byte>, rest: seq<byte>)
    requires |out| <= MAX_STRING && ValidUtf8(out)
    ensures ReadChars([QUOTE] + rest, out) == Parsed(out, rest)
  {
    hide ValidUtf8;
  }

  lemma {:induction false} EscapedReads(s: seq<byte>, out: seq<byte>, rest: seq<byte>)
    requires |out| + |s| <= MAX_STRING && ValidUtf8(out + s)
    ensures ReadChars(Escape(s) + ([QUOTE] + rest), out) == Parsed(out + s, rest)
    decreases |s|
  {
    hide ReadChars, ValidUtf8, EscapeByte;
    var tail := [QUOTE] + rest;
    if s == [] {
      assert out + s == out && Escape(s) + tail == tail;
      ClosingQuoteReads(out, rest);
    } else {
      assert Escape(s) + tail == EscapeByte(s[0]) + (Escape(s[1..]) + tail);
      EscapeByteReads(s[0], Escape(s[1..]) + tail, out);
      assert (out + [s[0]]) + s[1..] == out + s;
      EscapedReads(s[1..], out + [s[0]], rest);
    }
  }

  /** Every valid text of at most 64 KiB survives escaping, and its quotation is consumed exactly, whatever follows. */
  lemma StringRoundTrip(s: seq<byte>, rest: seq<byte>)
    requires ValidUtf8(s) && |s| <= MAX_STRING
    ensures ReadString(Quoted(s) + rest) == Parsed(s, rest)
  {
    hide ReadChars, ValidUtf8, Escape;
    assert (Quoted(s) + rest)[1..] == Escape(s) + ([QUOTE] + rest);
    assert [] + s == s;
    EscapedReads(s, [], rest);
  }

  /** Escaped text holds no quote and no control character of its own: it stays inside its quotation marks. */
  lemma {:induction false} EscapedIsInert(s: seq<byte>)
    ensures forall b :: b in Escape(s) ==> b >= 0x20
    ensures forall i :: 0 <= i < |Escape(s)| && Escape(s)[i] == QUOTE ==> i > 0 && Escape(s)[i - 1] == BACKSLASH
  {
    if s != [] {
      EscapedIsInert(s[1..]);
      var head, tail := EscapeByte(s[0]), Escape(s[1..]);
      assert forall i :: |head| <= i < |Escape(s)| ==> Escape(s)[i] == tail[i - |head|];
      assert forall i :: 0 <= i < |head| ==> Escape(s)[i] == head[i];
    }
  }

  // ---- surrogates ----

  predicate Surrogate(c: nat) {
    0xd800 <= c <= 0xdfff
  }

  /** A surrogate's encoding inside a text makes the text invalid, whatever surrounds it (section 3 of RFC 3629). */
  lemma {:induction false} SurrogateInvalid(s: seq<byte>, i: nat)
    requires i + 1 < |s| && s[i] == 0xed && s[i + 1] >= 0xa0
    ensures !ValidUtf8(s)
    decreases |s|
  {
    var n := CharLength(s);
    if n > 0 && n <= i {
      assert s[n..][i - n] == 0xed && s[n..][i - n + 1] >= 0xa0;
      SurrogateInvalid(s[n..], i - n);
    }
  }

  lemma Utf8ValidUnlessSurrogate(c: nat)
    requires c <= 0xffff
    ensures ValidUtf8(Utf8(c)) <==> !Surrogate(c)
  {
    var s := Utf8(c);
    if Surrogate(c) {
      SurrogateInvalid(s, 0);
    } else {
      assert CharLength(s) == |s|;
      assert s[|s|..] == [];
    }
  }

  /**
   * A \u escape of a surrogate makes the whole string unreadable, even as half of a pair that section 7 of RFC 8259
   * allows; alone in a string, an escape is readable exactly when it is not a surrogate.
   */
  lemma SurrogateEscapeRefused(hex: seq<byte>, rest: seq<byte>, out: seq<byte>)
    requires |hex| == 4 && HexValue(hex).Some? && Surrogate(HexValue(hex).value)
    ensures ReadChars([BACKSLASH] + ([LETTER_U] + (hex + rest)), out).Malformed?
  {
    hide ValidUtf8, HexValue, ReadEscape;
    var s := [BACKSLASH] + ([LETTER_U] + (hex + rest));
    assert s[1..] == [LETTER_U] + (hex + rest);
    UnicodeReads(hex, rest);
    var grown := out + Utf8(HexValue(hex).value);
    CharsOk(rest, grown);
    if ReadChars(s, out).Parsed? {
      var text := ReadChars(s, out).value;
      assert grown <= text;
      assert grown[|out|] == 0xed && grown[|out| + 1] >= 0xa0;
      assert text[|out|] == grown[|out|] && text[|out| + 1] == grown[|out| + 1];
      SurrogateInvalid(text, |out|);
    }
  }

  lemma EscapeReadableIff(hex: seq<byte>, rest: seq<byte>)
    requires |hex| == 4 && HexValue(hex).Some?
    ensures ReadString([QUOTE] + ([BACKSLASH] + ([LETTER_U] + (hex + ([QUOTE] + rest))))).Parsed? <==>
            !Surrogate(HexValue(hex).value)
  {
    hide ValidUtf8, HexValue, CharLength, ReadEscape, Utf8;
    var u := [LETTER_U] + (hex + ([QUOTE] + rest));
    var t := [BACKSLASH] + u;
    assert ([QUOTE] + t)[1..] == t;
    var c := HexValue(hex).value;
    if Surrogate(c) {
      SurrogateEscapeRefused(hex, [QUOTE] + rest, []);
    } else {
      assert t[1..] == u;
      UnicodeReads(hex, [QUOTE] + rest);
      Utf8ValidUnlessSurrogate(c);
      assert [] + Utf8(c) == Utf8(c);
      assert ReadChars([QUOTE] + rest, Utf8(c)).Parsed?;
    }
  }

  // ---- which string literals are readable ----

  /** One lexical element of a string literal: a byte that stands for itself, or one of the two kinds of escape. */
  datatype Item = Raw(b: byte) | Simple(letter: byte) | Unicode(hex: seq<byte>)
  {
    predicate Lexical() {
      match this
      case Raw(b) => b >= 0x20 && b != QUOTE && b != BACKSLASH
      case Simple(letter) => letter != LETTER_U && Unescape(letter).Some?
      case Unicode(hex) => |hex| == 4 && HexValue(hex).Some?
    }

    predicate IsSurrogate() {
      Unicode? && |hex| == 4 && HexValue(hex).Some? && Surrogate(HexValue(hex).value)
    }

    /** How the element is written. */
    function Source(): seq<byte> {
      match this
      case Raw(b) => [b]
      case Simple(letter) => [BACKSLASH, letter]
      case Unicode(hex) => [BACKSLASH, LETTER_U] + hex
    }

    /** What the element stands for. */
    function Text(): seq<byte>
      requires Lexical()
    {
      match this
      case Raw(b) => [b]
      case Simple(letter) => [Unescape(letter).value]
      case Unicode(hex) => Utf8(HexValue(hex).value)
    }
  }

  ghost predicate Lexical(items: seq<Item>) {
    forall i :: i in items ==> i.Lexical()
  }

  function Sources(items: seq<Item>): seq<byte> {
    if items == [] then [] else items[0].Source() + Sources(items[1..])
  }

  ghost function Texts(items: seq<Item>): seq<byte>
    requires Lexical(items)
  {
    if items == [] then [] else items[0].Text() + Texts(items[1..])
  }

  ghost predicate SurrogateFree(items: seq<Item>) {
    forall i :: i in items ==> !i.IsSurrogate()
  }

  /** Two texts whose seam is not inside a character are valid together exactly when each is. */
  lemma {:induction false} ValidSplits(a: seq<byte>, b: seq<byte>)
    requires b != [] ==> !IsContinuation(b[0])
    ensures ValidUtf8(a + b) <==> ValidUtf8(a) && ValidUtf8(b)
    decreases |a|
  {
    if a == [] {
      assert a + b == b;
    } else {
      var n := CharLength(a);
      LengthAtSeam(a, b);
      if n > 0 {
        assert (a + b)[n..] == a[n..] + b;
        ValidSplits(a[n..], b);
      }
    }
  }

  lemma LengthAtSeam(a: seq<byte>, b: seq<byte>)
    requires a != [] && (b != [] ==> !IsContinuation(b[0]))
    ensures CharLength(a + b) == CharLength(a)
  {
  }

  /** A complete character in front decides nothing about the rest. */
  lemma ValidAfterChar(c: seq<byte>, s: seq<byte>)
    requires c != [] && CharLength(c) == |c|
    ensures ValidUtf8(c + s) <==> ValidUtf8(s)
  {
    assert CharLength(c + s) == |c|;
    assert (c + s)[|c|..] == s;
  }

  lemma {:induction false} ValidAfterAscii(a: seq<byte>, s: seq<byte>)
    requires forall i :: 0 <= i < |a| ==> a[i] < 0x80
    ensures ValidUtf8(a + s) <==> ValidUtf8(s)
    decreases |a|
  {
    if a == [] {
      assert a + s == s;
    } else {
      assert a + s == [a[0]] + (a[1..] + s);
      assert a[0] < 0x80;
      ValidAfterChar([a[0]], a[1..] + s);
      ValidAfterAscii(a[1..], s);
    }
  }

  lemma HexIsAscii(hex: seq<byte>)
    requires |hex| == 4 && HexValue(hex).Some?
    ensures forall i :: 0 <= i < 4 ==> hex[i] < 0x80
  {
  }

  /** An escape is transparent in the source, and in the text unless it is a surrogate. */
  lemma EscapeIsTransparent(i: Item, source: seq<byte>, text: seq<byte>)
    requires i.Lexical() && !i.Raw?
    ensures ValidUtf8(i.Source() + source) <==> ValidUtf8(source)
    ensures ValidUtf8(i.Text() + text) <==> !i.IsSurrogate() && ValidUtf8(text)
    ensures |i.Source()| > 0 && !IsContinuation(i.Source()[0]) && |i.Text()| > 0 && !IsContinuation(i.Text()[0])
  {
    hide ValidUtf8, HexValue;
    if i.Unicode? {
      HexIsAscii(i.hex);
      var c := HexValue(i.hex).value;
      if Surrogate(c) {
        SurrogateInvalid(i.Text() + text, 0);
      } else {
        assert CharLength(Utf8(c)) == |Utf8(c)|;
        ValidAfterChar(Utf8(c), text);
      }
    } else {
      assert i.Text() == [Unescape(i.letter).value];
      ValidAfterAscii(i.Text(), text);
    }
    ValidAfterAscii(i.Source(), source);
  }

  /** The decoded text is valid exactly when the literal as written is, and no escape is a surrogate. */
  lemma {:induction false} TextValidIff(run: seq<byte>, items: seq<Item>)
    requires Lexical(items)
    ensures ValidUtf8(run + Texts(items)) <==> ValidUtf8(run + Sources(items)) && SurrogateFree(items)
    decreases |items|
  {
    hide ValidUtf8, Item.Lexical, Item.Source, Item.Text, Item.IsSurrogate;
    if items != [] {
      var i, tail := items[0], items[1..];
      assert items == [i] + tail && Lexical(tail);
      assert SurrogateFree(items) <==> !i.IsSurrogate() && SurrogateFree(tail);
      var source, text := Sources(tail), Texts(tail);
      if i.Raw? {
        RawStandsForItself(i);
        assert run + ([i.b] + text) == (run + [i.b]) + text;
        assert run + ([i.b] + source) == (run + [i.b]) + source;
        TextValidIff(run + [i.b], tail);
      } else {
        EscapeIsTransparent(i, source, text);
        assert (i.Source() + source)[0] == i.Source()[0] && (i.Text() + text)[0] == i.Text()[0];
        ValidSplits(run, i.Source() + source);
        ValidSplits(run, i.Text() + text);
        assert [] + source == source && [] + text == text;
        TextValidIff([], tail);
      }
    }
  }

  lemma RawStandsForItself(i: Item)
    requires i.Lexical() && i.Raw?
    ensures i.Source() == [i.b] && i.Text() == [i.b] && !i.IsSurrogate()
  {
  }

  /** The reader takes one lexical element, unless the text grows too long. */
  lemma ItemReads(i: Item, rest: seq<byte>, out: seq<byte>)
    requires i.Lexical()
    ensures ReadChars(i.Source() + rest, out) ==
            if |out| + |i.Text()| > MAX_STRING then Malformed else ReadChars(rest, out + i.Text())
  {
    hide ValidUtf8, HexValue, Utf8;
    var s := i.Source() + rest;
    match i {
      case Raw(b) =>
        assert s[1..] == rest;
      case Simple(letter) =>
        assert s[1..] == [letter] + rest;
        assert ([letter] + rest)[1..] == rest;
      case Unicode(hex) =>
        assert s[1..] == [LETTER_U] + (hex + rest);
        UnicodeReads(hex, rest);
    }
  }

  lemma {:induction false} ItemsRead(items: seq<Item>, rest: seq<byte>, out: seq<byte>)
    requires Lexical(items)
    ensures ReadChars(Sources(items) + ([QUOTE] + rest), out) ==
            if |out| + |Texts(items)| <= MAX_STRING && ValidUtf8(out + Texts(items))
            then Parsed(out + Texts(items), rest) else Malformed
    decreases |items|
  {
    hide ValidUtf8, ReadChars, Item.Lexical, Item.Source, Item.Text;
    var tail := [QUOTE] + rest;
    if items == [] {
      assert Sources(items) + tail == tail && out + Texts(items) == out;
      QuoteReads(out, rest);
    } else {
      var i := items[0];
      assert Sources(items) + tail == i.Source() + (Sources(items[1..]) + tail);
      ItemReads(i, Sources(items[1..]) + tail, out);
      assert (out + i.Text()) + Texts(items[1..]) == out + Texts(items);
      ItemsRead(items[1..], rest, out + i.Text());
    }
  }

  lemma QuoteReads(out: seq<byte>, rest: seq<byte>)
    ensures ReadChars([QUOTE] + rest, out) ==
            if |out| <= MAX_STRING && ValidUtf8(out) then Parsed(out, rest) else Malformed
  {
    hide ValidUtf8;
    assert ([QUOTE] + rest)[1..] == rest;
  }

  /**
   * A lexically well-formed string is readable exactly when its text is at most 64 KiB, the literal as written is valid
   * UTF-8, and no escape in it is a surrogate; it then stands for its decoded text.
   */
  lemma LiteralReadableIff(items: seq<Item>, rest: seq<byte>)
    requires Lexical(items)
    ensures ReadString([QUOTE] + (Sources(items) + ([QUOTE] + rest))) ==
            if |Texts(items)| <= MAX_STRING && ValidUtf8(Sources(items)) && SurrogateFree(items)
            then Parsed(Texts(items), rest) else Malformed
  {
    hide ValidUtf8, ReadChars, Lexical, SurrogateFree, Texts, Sources;
    var s := Sources(items) + ([QUOTE] + rest);
    assert ([QUOTE] + s)[1..] == s;
    assert [] + Texts(items) == Texts(items) && [] + Sources(items) == Sources(items);
    ItemsRead(items, rest, []);
    TextValidIff([], items);
  }

  lemma {:induction false} CharsAreItems(s: seq<byte>, out: seq<byte>)
    requires ReadChars(s, out).Parsed?
    ensures exists items :: Lexical(items) && s == Sources(items) + ([QUOTE] + ReadChars(s, out).rest)
    decreases |s|
  {
    hide ValidUtf8, Lexical, Sources, Item.Source, Item.Lexical, Item.Text, ReadChars;
    var p := ReadChars(s, out);
    SomethingRead(s, out);
    if s[0] == QUOTE {
      NoItems();
      assert s == [] + ([QUOTE] + p.rest);
    } else {
      var i := FirstItem(s, out);
      var t := s[|i.Source()|..];
      CharsAreItems(t, out + i.Text());
      var items :| Lexical(items) && t == Sources(items) + ([QUOTE] + p.rest);
      ItemInFront(i, items);
      assert s == i.Source() + t;
      assert s == (i.Source() + Sources(items)) + ([QUOTE] + p.rest);
    }
  }

  lemma NoItems()
    ensures Lexical([]) && Sources([]) == []
  {
  }

  lemma ItemInFront(i: Item, items: seq<Item>)
    requires i.Lexical() && Lexical(items)
    ensures Lexical([i] + items) && Sources([i] + items) == i.Source() + Sources(items)
  {
    hide Item.Lexical, Item.Source;
    assert ([i] + items)[1..] == items;
  }

  lemma SomethingRead(s: seq<byte>, out: seq<byte>)
    requires ReadChars(s, out).Parsed?
    ensures s != [] && (s[0] == QUOTE ==> s == [QUOTE] + ReadChars(s, out).rest)
  {
    hide ValidUtf8, ReadEscape;
  }

  lemma FirstItem(s: seq<byte>, out: seq<byte>) returns (i: Item)
    requires ReadChars(s, out).Parsed? && s[0] != QUOTE
    ensures i.Lexical() && 0 < |i.Source()| && i.Source() <= s
    ensures ReadChars(s[|i.Source()|..], out + i.Text()) == ReadChars(s, out)
  {
    hide ValidUtf8, HexValue, Utf8;
    if s[0] != BACKSLASH {
      i := Raw(s[0]);
    } else {
      var t := s[1..];
      assert s == [s[0], t[0]] + t[1..] && s[2..] == t[1..];
      if t[0] == LETTER_U {
        i := Unicode(t[1..5]);
        assert s == [s[0], t[0]] + t[1..5] + t[5..];
        assert s[6..] == t[5..];
      } else {
        i := Simple(t[0]);
      }
    }
  }

  /** Every string the reader accepts is a lexically well-formed literal that meets those three conditions. */
  lemma ReadableIsLiteral(s: seq<byte>)
    requires ReadString(s).Parsed?
    ensures exists items ::
              && Lexical(items) && s == [QUOTE] + (Sources(items) + ([QUOTE] + ReadString(s).rest))
              && |Texts(items)| <= MAX_STRING && ValidUtf8(Sources(items)) && SurrogateFree(items)
              && ReadString(s).value == Texts(items)
  {
    hide ValidUtf8, ReadChars, Lexical, Sources, Texts, SurrogateFree;
    CharsAreItems(s[1..], []);
    var rest := ReadString(s).rest;
    var items :| Lexical(items) && s[1..] == Sources(items) + ([QUOTE] + rest);
    assert s == [QUOTE] + s[1..];
    LiteralReadableIff(items, rest);
  }

  lemma EscapeSnoc(s: seq<byte>, b: byte)
    ensures Escape(s + [b]) == Escape(s) + EscapeByte(b)
  {
    hide EscapeByte;
    if s == [] {
      assert Escape([b]) == EscapeByte(b) + [];
    } else {
      assert (s + [b])[1..] == s[1..] + [b];
      EscapeSnoc(s[1..], b);
    }
  }

  method JsonEscape(value: seq<byte>) returns (output: seq<byte>)
    ensures output == Escape(value)
  {
    output := [];
    for i := 0 to |value|
      invariant output == Escape(value[..i])
    {
      assert value[..i + 1] == value[..i] + [value[i]];
      EscapeSnoc(value[..i], value[i]);
      output := output + EscapeByte(value[i]);
    }
    assert value[..|value|] == value;
  }

  // ---- the reader as an object with a position ----

  class JsonReader {
    const input: seq<byte>
    var position: nat

    ghost predicate Valid()
      reads this
    {
      position <= |input|
    }

    ghost function Rest(): seq<byte>
      reads this
      requires Valid()
    {
      input[position..]
    }

    constructor (input: seq<byte>)
      ensures Valid() && this.input == input && Rest() == input
    {
      this.input := input;
      position := 0;
    }

    method ConsumeWhitespace()
      requires Valid()
      modifies this
      ensures Valid() && old(position) <= position && Rest() == SkipSpace(old(Rest()))
    {
      while position < |input| && IsSpace(input[position])
        invariant Valid() && old(position) <= position
        invariant SkipSpace(Rest()) == SkipSpace(old(Rest()))
      {
        assert Rest()[1..] == input[position + 1..];
        position := position + 1;
      }
    }

    method ParseEscape() returns (ok: bool, text: seq<byte>)
      requires Valid()
      modifies this
      ensures Valid() && old(position) <= position
      ensures if ok then ReadEscape(old(Rest())) == Parsed(text, Rest()) && old(position) < position
              else ReadEscape(old(Rest())).Malformed?
    {
      hide HexValue;
      if position >= |input| {
        return false, [];
      }
      ghost var s := Rest();
      var escape := input[position];
      position := position + 1;
      assert s[1..] == Rest();
      if escape != LETTER_U {
        var plain := Unescape(escape);
        return plain.Some?, if plain.Some? then [plain.value] else [];
      }
      if |input| - position < 4 {
        return false, [];
      }
      var hex := HexValue(input[position..position + 4]);
      assert s[1..5] == input[position..position + 4];
      position := position + 4;
      assert s[5..] == Rest();
      return hex.Some?, if hex.Some? then Utf8(hex.value) else [];
    }

    method ParseString() returns (ok: bool, output: seq<byte>)
      requires Valid()
      modifies this
      ensures Valid() && old(position) <= position
      ensures if ok then ReadString(old(Rest())) == Parsed(output, Rest()) && old(position) < position
              else ReadString(old(Rest())).Malformed?
    {
      hide ReadEscape, ValidUtf8;
      output := [];
      if position >= |input| || input[position] != QUOTE {
        return false, output;
      }
      assert Rest()[1..] == input[position + 1..];
      position := position + 1;
      while position < |input|
        invariant Valid() && old(position) < position
        invariant ReadString(old(Rest())) == ReadChars(Rest(), output)
        decreases |input| - position
      {
        ghost var s := Rest();
        var character := input[position];
        position := position + 1;
        assert s[1..] == Rest();
        if character == QUOTE {
          return |output| <= MAX_STRING && ValidUtf8(output), output;
        }
        if character < 0x20 {
          return false, output;
        }
        if character != BACKSLASH {
          output := output + [character];
        } else {
          var text;
          ok, text := ParseEscape();
          if !ok {
            return false, output;
          }
          output := output + text;
        }
        if |output| > MAX_STRING {
          return false, output;
        }
      }
      return false, output;
    }

    method SkipDigits() returns (n: nat)
      requires Valid()
      modifies this
      ensures Valid() && n == Digits(old(Rest())) && position == old(position) + n
    {
      n := 0;
      while position < |input| && IsDigit(input[position])
        invariant Valid() && position == old(position) + n
        invariant Digits(old(Rest())) == n + Digits(Rest())
      {
        assert Rest()[1..] == input[position + 1..];
        position := position + 1;
        n := n + 1;
      }
    }

    method ParseInteger() returns (ok: bool)
      requires Valid()
      modifies this
      ensures Valid() && old(position) <= position
      ensures ok <==> IntegerLength(old(Rest())) > 0
      ensures ok ==> position == old(position) + IntegerLength(old(Rest()))
    {
      ghost var s := Rest();
      if position < |input| && input[position] == 0x2d {
        position := position + 1;
        assert s[1..] == Rest();
      } else {
        assert s[0..] == Rest();
      }
      if position >= |input| {
        return false;
      }
      if input[position] == 0x30 {
        position := position + 1;
        return true;
      }
      var n := SkipDigits();
      ok := n > 0;
    }

    method ParseFraction() returns (ok: bool)
      requires Valid()
      modifies this
      ensures Valid() && old(position) <= position
      ensures ok <==> FractionLength(old(Rest())).Some?
      ensures ok ==> position == old(position) + FractionLength(old(Rest())).value
    {
      if position >= |input| || input[position] != 0x2e {
        return true;
      }
      assert Rest()[1..] == input[position + 1..];
      position := position + 1;
      var n := SkipDigits();
      ok := n > 0;
    }

    method ParseExponent() returns (ok: bool)
      requires Valid()
      modifies this
      ensures Valid() && old(position) <= position
      ensures ok <==> ExponentLength(old(Rest())).Some?
      ensures ok ==> position == old(position) + ExponentLength(old(Rest())).value
    {
      if position >= |input| || (input[position] != 0x65 && input[position] != 0x45) {
        return true;
      }
      ghost var s := Rest();
      position := position + 1;
      if position < |input| && (input[position] == 0x2b || input[position] == 0x2d) {
        position := position + 1;
        assert s[2..] == Rest();
      } else {
        assert s[1..] == Rest();
      }
      var n := SkipDigits();
      ok := n > 0;
    }

    method ParseNumber() returns (ok: bool, output: seq<byte>)
      requires Valid()
      modifies this
      ensures Valid() && old(position) <= position
      ensures if ok then ReadNumber(old(Rest())) == Parsed(output, Rest()) && old(position) < position
              else ReadNumber(old(Rest())).Malformed?
    {
      hide IntegerLength, FractionLength, ExponentLength;
      ghost var s := Rest();
      var begin := position;
      output := [];
      ok := ParseInteger();
      if !ok {
        return;
      }
      assert s[position - begin..] == Rest();
      ok := ParseFraction();
      if !ok {
        return;
      }
      assert s[position - begin..] == Rest();
      ok := ParseExponent();
      if ok {
        output := input[begin..position];
        assert output == s[..position - begin] && s[position - begin..] == Rest();
      }
    }

    method ParseWord(word: seq<byte>, v: Json) returns (ok: bool)
      requires Valid() && word != []
      modifies this
      ensures Valid() && old(position) <= position
      ensures if ok then ReadWord(old(Rest()), word, v) == Parsed(v, Rest()) && old(position) < position
              else ReadWord(old(Rest()), word, v).Malformed?
    {
      ghost var s := Rest();
      if |input| - position < |word| {
        return false;
      }
      assert s[..|word|] == input[position..position + |word|];
      if input[position..position + |word|] != word {
        return false;
      }
      position := position + |word|;
      assert s[|word|..] == Rest();
      ok := true;
    }

    method ParseValue(depth: nat) returns (ok: bool, value: Json)
      requires Valid()
      modifies this
      ensures Valid() && old(position) <= position
      ensures if ok then ReadValue(old(Rest()), depth) == Parsed(value, Rest()) && old(position) < position
              else ReadValue(old(Rest()), depth).Malformed?
      decreases |input| - position, 2
    {
      hide ReadString, ReadNumber, ReadWord, ReadMembers, ReadElements, SkipSpace;
      value := Null;
      if depth > MAX_DEPTH {
        return false, value;
      }
      ConsumeWhitespace();
      if position >= |input| {
        return false, value;
      }
      var first := input[position];
      assert first == Rest()[0];
      if first == 0x7b {
        ok, value := ParseObject(depth + 1);
      } else if first == 0x5b {
        ok, value := ParseArray(depth + 1);
      } else if first == QUOTE {
        var text;
        ok, text := ParseString();
        value := String(text);
      } else if first == 0x74 {
        value := Boolean(true);
        ok := ParseWord(TRUE_WORD, value);
      } else if first == 0x66 {
        value := Boolean(false);
        ok := ParseWord(FALSE_WORD, value);
      } else if first == 0x6e {
        ok := ParseWord(NULL_WORD, value);
      } else {
        var text;
        ok, text := ParseNumber();
        value := Number(text);
      }
    }

    method ParseMember(depth: nat) returns (ok: bool, member: Member)
      requires Valid()
      modifies this
      ensures Valid() && old(position) <= position
      ensures if ok then ReadMember(old(Rest()), depth) == Parsed(member, Rest()) && old(position) < position
              else ReadMember(old(Rest()), depth).Malformed?
      decreases |input| - position, 0
    {
      hide ReadString, ReadValue, SkipSpace;
      member := Member([], Null);
      var key, child;
      ok, key := ParseString();
      if !ok {
        return false, member;
      }
      ConsumeWhitespace();
      if position >= |input| || input[position] != 0x3a {
        return false, member;
      }
      assert Rest()[1..] == input[position + 1..];
      position := position + 1;
      ok, child := ParseValue(depth);
      member := Member(key, child);
    }

    method ParseObject(depth: nat) returns (ok: bool, value: Json)
      requires Valid() && position < |input|
      modifies this
      ensures Valid() && old(position) < position
      ensures var u := SkipSpace(old(Rest())[1..]);
              if u != [] && u[0] == 0x7d then ok && value == Object([]) && Rest() == u[1..]
              else if ok then ReadMembers(u, depth, []) == Parsed(value, Rest())
              else ReadMembers(u, depth, []).Malformed?
      decreases |input| - position, 1
    {
      hide ReadMember, SkipSpace;
      assert Rest()[1..] == input[position + 1..];
      position := position + 1;
      value := Object([]);
      ConsumeWhitespace();
      ghost var u := Rest();
      if position < |input| && input[position] == 0x7d {
        position := position + 1;
        return true, value;
      }
      var members: seq<Member> := [];
      while true
        invariant Valid() && old(position) < position && |members| <= MAX_MEMBERS
        invariant ReadMembers(u, depth, []) == ReadMembers(Rest(), depth, members)
        invariant u != [] ==> u[0] != 0x7d
        decreases |input| - position
      {
        if |members| >= MAX_MEMBERS {
          return false, value;
        }
        var member;
        ok, member := ParseMember(depth);
        if !ok || HasKey(members, member.key) {
          return false, value;
        }
        members := members + [member];
        ConsumeWhitespace();
        if position >= |input| {
          return false, value;
        }
        assert Rest()[1..] == input[position + 1..];
        if input[position] == 0x7d {
          position := position + 1;
          return true, Object(members);
        }
        if input[position] != 0x2c {
          return false, value;
        }
        position := position + 1;
        ConsumeWhitespace();
      }
    }

    method ParseArray(depth: nat) returns (ok: bool, value: Json)
      requires Valid() && position < |input|
      modifies this
      ensures Valid() && old(position) < position
      ensures var u := SkipSpace(old(Rest())[1..]);
              if u != [] && u[0] == 0x5d then ok && value == Array([]) && Rest() == u[1..]
              else if ok then ReadElements(u, depth, []) == Parsed(value, Rest())
              else ReadElements(u, depth, []).Malformed?
      decreases |input| - position, 1
    {
      hide ReadValue, SkipSpace;
      assert Rest()[1..] == input[position + 1..];
      position := position + 1;
      value := Array([]);
      ConsumeWhitespace();
      ghost var u := Rest();
      if position < |input| && input[position] == 0x5d {
        position := position + 1;
        return true, value;
      }
      var elements: seq<Json> := [];
      while position < |input|
        invariant Valid() && old(position) < position && |elements| <= MAX_MEMBERS
        invariant ReadElements(u, depth, []) == ReadElements(Rest(), depth, elements)
        invariant u != [] ==> u[0] != 0x5d
        decreases |input| - position
      {
        if |elements| >= MAX_MEMBERS {
          return false, value;
        }
        var child;
        ok, child := ParseValue(depth);
        if !ok {
          return false, value;
        }
        elements := elements + [child];
        ConsumeWhitespace();
        if position >= |input| {
          return false, value;
        }
        assert Rest()[1..] == input[position + 1..];
        if input[position] == 0x5d {
          position := position + 1;
          return true, Array(elements);
        }
        if input[position] != 0x2c {
          return false, value;
        }
        position := position + 1;
        ConsumeWhitespace();
      }
      return false, value;
    }
  }

  method ParseJson(input: seq<byte>) returns (value: Option<Json>)
    ensures value == Parse(input)
  {
    hide ReadValue, SkipSpace;
    if |input| > MAX_JSON {
      return None;
    }
    var reader := new JsonReader(input);
    var ok, v := reader.ParseValue(0);
    if !ok {
      return None;
    }
    reader.ConsumeWhitespace();
    return if reader.position == |input| then Some(v) else None;
  }
}
