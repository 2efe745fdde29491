/** The text sanitizer of diagnostics and audit records: what it redacts, how it is bounded, what it leaves alone. */
module Sanitizer {
  import opened Bytes

  // ---- characters of the C locale ----

  predicate IsSpace(b: byte) {
    b == 0x20 || 9 <= b <= 13
  }

  predicate NotSpace(b: byte) {
    !IsSpace(b)
  }

  predicate IsControl(b: byte) {
    b < 0x20 || b == 0x7f
  }

  predicate IsDigit(b: byte) {
    0x30 <= b <= 0x39
  }

  predicate IsLetter(b: byte) {
    0x41 <= b <= 0x5a || 0x61 <= b <= 0x7a
  }

  predicate IsHex(b: byte) {
    IsDigit(b) || 0x41 <= b <= 0x46 || 0x61 <= b <= 0x66
  }

  function Lower(b: byte): byte {
    if 0x41 <= b <= 0x5a then b + 0x20 else b
  }

  function LowerText(t: seq<byte>): (l: seq<byte>)
    ensures |l| == |t| && forall i :: 0 <= i < |t| ==> l[i] == Lower(t[i])
  {
    if t == [] then [] else [Lower(t[0])] + LowerText(t[1..])
  }

  /** The bytes of an ASCII text. */
  function Ascii(s: string): (t: seq<byte>)
    ensures |t| == |s|
  {
    seq(|s|, i requires 0 <= i < |s| => (s[i] as int % 0x80) as byte)
  }

  const SPACE: byte := 0x20
  const DOT: byte := 0x2e
  const COLON: byte := 0x3a
  const EQUALS: byte := 0x3d
  const HYPHEN: byte := 0x2d
  const UNDERSCORE: byte := 0x5f
  const SLASH: byte := 0x2f
  const BACKSLASH: byte := 0x5c
  const AT: byte := 0x40

  const CLIENT := Ascii("client ")
  const CLIENT_MARK := Ascii("client <id>")
  const REDACTED := Ascii("<redacted>")
  const ELLIPSIS := Ascii("...")

  // ---- classification of tokens ----

  /** Quotes, brackets, comma and semicolon. */
  predicate IsPunctuation(b: byte) {
    b == 0x22 || 0x27 <= b <= 0x29 || b == 0x2c || 0x3b <= b <= 0x3c || b == 0x3e || b == 0x5b || b == 0x5d ||
    b == 0x7b || b == 0x7d
  }

  function TrimFront(t: seq<byte>): seq<byte> {
    if t != [] && IsPunctuation(t[0]) then TrimFront(t[1..]) else t
  }

  function TrimBack(t: seq<byte>): seq<byte> {
    if t != [] && (IsPunctuation(t[|t| - 1]) || t[|t| - 1] == DOT) then TrimBack(t[..|t| - 1]) else t
  }

  function Trim(t: seq<byte>): seq<byte> {
    TrimBack(TrimFront(t))
  }

  /** Index of the first byte of a kind, |t| when there is none. */
  function Find(t: seq<byte>, kind: byte -> bool): (i: nat)
    ensures i <= |t| && (i < |t| ==> kind(t[i])) && forall j :: 0 <= j < i ==> !kind(t[j])
  {
    if t == [] || kind(t[0]) then 0 else 1 + Find(t[1..], kind)
  }

  predicate IsKey(key: seq<byte>) {
    key == Ascii("authorization") || key == Ascii("clientid") || key == Ascii("hostname") ||
    key == Ascii("machine") || key == Ascii("machinename") || key == Ascii("password") || key == Ascii("psk") ||
    key == Ascii("school") || key == Ascii("secret") || key == Ascii("token") || key == Ascii("username") ||
    key == Ascii("sas") || key == Ascii("sascode") || key == Ascii("pairingcode")
  }

  function WithoutDashes(t: seq<byte>): seq<byte> {
    if t == [] then []
    else (if t[0] == HYPHEN || t[0] == UNDERSCORE then [] else [t[0]]) + WithoutDashes(t[1..])
  }

  predicate Assigns(b: byte) {
    b == EQUALS || b == COLON
  }

  predicate SensitiveAssignment(t: seq<byte>) {
    var i := Find(t, Assigns);
    i < |t| && IsKey(WithoutDashes(LowerText(t[..i])))
  }

  function DropAssigns(t: seq<byte>): seq<byte> {
    if t != [] && Assigns(t[|t| - 1]) then DropAssigns(t[..|t| - 1]) else t
  }

  predicate SensitiveKey(t: seq<byte>) {
    IsKey(WithoutDashes(DropAssigns(LowerText(Trim(t)))))
  }

  predicate WindowsPath(t: seq<byte>) {
    (|t| >= 2 && t[0] == t[1] && (t[0] == BACKSLASH || t[0] == SLASH)) ||
    exists i :: 0 <= i < |t| - 2 && IsLetter(t[i]) && t[i + 1] == COLON && (t[i + 2] == BACKSLASH || t[i + 2] == SLASH)
  }

  predicate IsAt(b: byte) {
    b == AT
  }

  predicate Email(t: seq<byte>) {
    var at := Find(t, IsAt);
    0 < at && at + 1 < |t| && DOT in t[at + 1..]
  }

  function DigitRun(t: seq<byte>): (n: nat)
    ensures n <= |t|
  {
    if t != [] && IsDigit(t[0]) then 1 + DigitRun(t[1..]) else 0
  }

  function Decimal(t: seq<byte>): int {
    if t == [] then 0 else 10 * Decimal(t[..|t| - 1]) + (t[|t| - 1] as int - 0x30)
  }

  /** Four octets from `part` on, separated by dots. */
  predicate Ipv4At(t: seq<byte>, part: nat)
    decreases 4 - part
  {
    var n := DigitRun(t);
    1 <= n <= 3 && Decimal(t[..n]) <= 255 &&
    (part >= 3 || (n < |t| && t[n] == DOT && Ipv4At(t[n + 1..], part + 1)))
  }

  /** Hexadecimal digits, colon, dot, percent sign and square brackets. */
  predicate InAddress(b: byte) {
    IsHex(b) || b == COLON || b == DOT || b == 0x25 || b == 0x5b || b == 0x5d
  }

  predicate IpAddress(t: seq<byte>) {
    (exists i :: 0 <= i < |t| && Ipv4At(t[i..], 0)) ||
    (multiset(t)[COLON] >= 2 && forall b :: b in t ==> InAddress(b))
  }

  predicate MacWith(t: seq<byte>, separator: byte) {
    |t| == 17 && forall i :: 0 <= i < 17 ==> if i % 3 == 2 then t[i] == separator else IsHex(t[i])
  }

  predicate MacAddress(t: seq<byte>) {
    MacWith(t, COLON) || MacWith(t, HYPHEN)
  }

  predicate IsEncoded(b: byte) {
    IsLetter(b) || IsDigit(b) || b == 0x2b || b == SLASH || b == UNDERSCORE || b == EQUALS || b == HYPHEN
  }

  predicate LooksSecret(t: seq<byte>) {
    |t| >= 32 && (forall b :: b in t ==> IsEncoded(b)) && (multiset(t)[HYPHEN] >= 4 || |t| >= 40)
  }

  /** The rest of the text after such a token is dropped with it. */
  predicate RedactsTail(core: seq<byte>) {
    SensitiveAssignment(core) || SensitiveKey(core) || WindowsPath(core)
  }

  predicate RedactsToken(core: seq<byte>) {
    Email(core) || IpAddress(core) || MacAddress(core) || LooksSecret(core)
  }

  /** Length of a client identifier at the front, 0 when there is none. */
  function ClientLength(t: seq<byte>): (n: nat)
    ensures n <= |t| && (n > 0 ==> n > |CLIENT|)
  {
    var p := |CLIENT|;
    if |t| < p || LowerText(t[..p]) != CLIENT || DigitRun(t[p..]) == 0 then 0 else p + DigitRun(t[p..])
  }

  // ---- the sanitizer ----

  function Limited(t: seq<byte>, maximum: nat): (l: seq<byte>)
    ensures |l| <= maximum && l <= t
  {
    if |t| <= maximum then t else t[..maximum]
  }

  /** Control characters become question marks. */
  function Shown(b: byte): byte {
    if IsControl(b) then 0x3f else b
  }

  function Visible(t: seq<byte>): (v: seq<byte>)
    ensures |v| == |t| && forall i :: 0 <= i < |t| ==> v[i] == Shown(t[i])
  {
    if t == [] then [] else [Shown(t[0])] + Visible(t[1..])
  }

  /** What is left of the text, what has been written, and whether a token was cut. */
  datatype Scan = Scan(rest: seq<byte>, output: seq<byte>, cut: bool)

  function TakeSpaces(s: Scan, maximum: nat): Scan {
    s.(rest := s.rest[Find(s.rest, NotSpace)..],
       output := if s.output != [] && s.output[|s.output| - 1] != SPACE then Limited(s.output + [SPACE], maximum)
                 else s.output)
  }

  function TakeToken(s: Scan, maximum: nat): Scan {
    var end := Find(s.rest, IsSpace);
    var token := s.rest[..end];
    var core := Trim(token);
    if RedactsTail(core) then s.(rest := [], output := Limited(s.output + REDACTED, maximum))
    else if RedactsToken(core) then s.(rest := s.rest[end..], output := Limited(s.output + REDACTED, maximum))
    else
      Scan(s.rest[end..], Limited(s.output + Visible(token), maximum), s.cut || |s.output| + |token| > maximum)
  }

  /** One turn of the loop. */
  function Turn(s: Scan, maximum: nat): (t: Scan)
    requires s.rest != []
    ensures |t.rest| < |s.rest| && (|s.output| <= maximum ==> |t.output| <= maximum)
  {
    var client := ClientLength(s.rest);
    if client > 0 then s.(rest := s.rest[client..], output := Limited(s.output + CLIENT_MARK, maximum))
    else if IsSpace(s.rest[0]) then TakeSpaces(s, maximum)
    else TakeToken(s, maximum)
  }

  function Scanned(s: Scan, maximum: nat): (t: Scan)
    ensures |s.output| <= maximum ==> |t.output| <= maximum
    decreases |s.rest|
  {
    if s.rest == [] || |s.output| >= maximum then s else Scanned(Turn(s, maximum), maximum)
  }

  /** A text that was cut, or not read to its end, ends in an ellipsis. */
  function Finish(s: Scan, maximum: nat): seq<byte> {
    if (s.cut || s.rest != []) && maximum >= 3 then s.output[..Min(|s.output|, maximum - 3)] + ELLIPSIS else s.output
  }

  function Sanitize(text: seq<byte>, maximum: nat): seq<byte> {
    if maximum == 0 then [] else Finish(Scanned(Scan(text, [], false), maximum), maximum)
  }

  // ---- what every output is like ----

  predicate Printable(t: seq<byte>) {
    forall i :: 0 <= i < |t| ==> !IsControl(t[i])
  }

  lemma MarksPrintable()
    ensures Printable(CLIENT_MARK) && Printable(REDACTED) && Printable(ELLIPSIS) && Printable([SPACE])
  {
  }

  lemma LimitedPrintable(s: seq<byte>, t: seq<byte>, maximum: nat)
    requires Printable(s) && Printable(t)
    ensures Printable(Limited(s + t, maximum))
  {
  }

  lemma TurnPrintable(s: Scan, maximum: nat)
    requires s.rest != [] && Printable(s.output)
    ensures Printable(Turn(s, maximum).output)
  {
    hide Limited, Printable, Trim, RedactsTail, RedactsToken, ClientLength;
    MarksPrintable();
    LimitedPrintable(s.output, CLIENT_MARK, maximum);
    LimitedPrintable(s.output, REDACTED, maximum);
    LimitedPrintable(s.output, [SPACE], maximum);
    var token := s.rest[..Find(s.rest, IsSpace)];
    VisiblePrintable(token);
    LimitedPrintable(s.output, Visible(token), maximum);
  }

  lemma VisiblePrintable(t: seq<byte>)
    ensures Printable(Visible(t))
  {
  }

  lemma {:induction false} ScannedPrintable(s: Scan, maximum: nat)
    requires Printable(s.output)
    ensures Printable(Scanned(s, maximum).output)
    decreases |s.rest|
  {
    hide Turn, Printable;
    if s.rest != [] && |s.output| < maximum {
      TurnPrintable(s, maximum);
      ScannedPrintable(Turn(s, maximum), maximum);
    }
  }

  /** Whatever the text, the output keeps its bound and holds no control character: no tab and no line break. */
  lemma SanitizedIsPrintable(text: seq<byte>, maximum: nat)
    ensures |Sanitize(text, maximum)| <= maximum && Printable(Sanitize(text, maximum))
  {
    hide Scanned, IsControl;
    var start := Scan(text, [], false);
    ScannedPrintable(start, maximum);
    MarksPrintable();
    var s := Scanned(start, maximum);
    assert |s.output| <= maximum;
    hide ELLIPSIS;
    if maximum >= 3 {
      var n := Min(|s.output|, maximum - 3);
      assert Printable(s.output[..n] + ELLIPSIS);
    }
  }

  /** The second pass over an audit field: tabs and line breaks become spaces. */
  function Untabbed(t: seq<byte>): (u: seq<byte>)
    ensures |u| == |t|
  {
    if t == [] then [] else [if t[0] == 9 || t[0] == 10 || t[0] == 13 then SPACE else t[0]] + Untabbed(t[1..])
  }

  function AuditField(text: seq<byte>, maximum: nat): seq<byte> {
    Untabbed(Sanitize(text, maximum))
  }

  lemma {:induction false} PrintableUntabbed(t: seq<byte>)
    requires Printable(t)
    ensures Untabbed(t) == t
  {
    if t != [] {
      PrintableUntabbed(t[1..]);
      assert !IsControl(t[0]);
    }
  }

  /** The second pass never finds anything to do. */
  lemma SecondPassIsIdle(text: seq<byte>, maximum: nat)
    ensures AuditField(text, maximum) == Sanitize(text, maximum)
  {
    hide Sanitize, Printable;
    SanitizedIsPrintable(text, maximum);
    PrintableUntabbed(Sanitize(text, maximum));
  }

  // ---- names of secrets ----

  const NAMES: seq<string> := [
    "authorization", "clientid", "hostname", "machine", "machinename", "password", "psk", "school", "secret", "token",
    "username", "sas", "sascode", "pairingcode"]

  /** A small letter, or the capital letter that goes with it. */
  predicate SameLetter(b: byte, c: char) {
    'a' <= c <= 'z' && (b as int == c as int || b as int == c as int - 'a' as int + 'A' as int)
  }

  /** The name in letters of either case, with hyphens and underscores anywhere. */
  predicate Spells(t: seq<byte>, name: string) {
    if t == [] then name == ""
    else if t[0] as int == '-' as int || t[0] as int == '_' as int then Spells(t[1..], name)
    else name != "" && SameLetter(t[0], name[0]) && Spells(t[1..], name[1..])
  }

  predicate NamesSecret(t: seq<byte>) {
    exists k :: 0 <= k < |NAMES| && Spells(t, NAMES[k])
  }

  predicate SmallLetters(name: string) {
    forall i :: 0 <= i < |name| ==> 'a' <= name[i] <= 'z'
  }

  lemma AsciiTail(name: string)
    requires name != "" && SmallLetters(name)
    ensures Ascii(name) == [name[0] as int as byte] + Ascii(name[1..])
  {
  }

  lemma {:induction false} SpellsAscii(t: seq<byte>, name: string)
    requires SmallLetters(name)
    ensures Spells(t, name) <==> WithoutDashes(LowerText(t)) == Ascii(name)
  {
    hide Ascii;
    if t != [] {
      assert LowerText(t)[1..] == LowerText(t[1..]);
      var rest := WithoutDashes(LowerText(t[1..]));
      if t[0] == HYPHEN || t[0] == UNDERSCORE {
        SpellsAscii(t[1..], name);
        assert WithoutDashes(LowerText(t)) == [] + rest;
      } else {
        assert WithoutDashes(LowerText(t)) == [Lower(t[0])] + rest;
        if name != "" {
          AsciiTail(name);
          SpellsAscii(t[1..], name[1..]);
          OneLetter(t[0], name[0]);
          SameHeads(Lower(t[0]), rest, name[0] as int as byte, Ascii(name[1..]));
        }
      }
    }
  }

  lemma OneLetter(b: byte, c: char)
    requires 'a' <= c <= 'z' && b != HYPHEN && b != UNDERSCORE
    ensures SameLetter(b, c) <==> Lower(b) as int == c as int
  {
  }

  lemma SameHeads(a: byte, x: seq<byte>, b: byte, y: seq<byte>)
    ensures [a] + x == [b] + y <==> a == b && x == y
  {
    if [a] + x == [b] + y {
      assert ([a] + x)[0] == ([b] + y)[0] && ([a] + x)[1..] == ([b] + y)[1..];
      assert ([a] + x)[1..] == x && ([b] + y)[1..] == y;
    }
  }

  lemma NamesAreSmall(k: nat)
    requires k < |NAMES|
    ensures SmallLetters(NAMES[k])
  {
  }

  lemma KeysAreNames(key: seq<byte>)
    ensures IsKey(key) <==> exists k :: 0 <= k < |NAMES| && key == Ascii(NAMES[k])
  {
    hide Ascii;
    assert NAMES[0] == "authorization" && NAMES[1] == "clientid" && NAMES[2] == "hostname" && NAMES[3] == "machine";
    assert NAMES[4] == "machinename" && NAMES[5] == "password" && NAMES[6] == "psk" && NAMES[7] == "school";
    assert NAMES[8] == "secret" && NAMES[9] == "token" && NAMES[10] == "username" && NAMES[11] == "sas";
    assert NAMES[12] == "sascode" && NAMES[13] == "pairingcode";
  }

  /** The key comparison finds the listed names in every spelling, and nothing else. */
  lemma NamedExactly(t: seq<byte>)
    ensures IsKey(WithoutDashes(LowerText(t))) <==> NamesSecret(t)
  {
    hide IsKey, Spells, WithoutDashes, LowerText, Ascii, NAMES, SmallLetters;
    var key := WithoutDashes(LowerText(t));
    KeysAreNames(key);
    forall k | 0 <= k < |NAMES|
      ensures Spells(t, NAMES[k]) <==> key == Ascii(NAMES[k])
    {
      NamesAreSmall(k);
      SpellsAscii(t, NAMES[k]);
    }
  }

  // ---- prose is left alone ----

  /** A word that no rule redacts: letters only, too short for a secret, and not the name of one. */
  predicate PlainWord(w: seq<byte>) {
    0 < |w| < 40 && Letters(w) && !NamesSecret(w)
  }

  /** Words, each followed by one space. */
  function Spaced(words: seq<seq<byte>>): seq<byte> {
    if words == [] then [] else words[0] + ([SPACE] + Spaced(words[1..]))
  }

  predicate Letters(w: seq<byte>) {
    forall i :: 0 <= i < |w| ==> IsLetter(w[i])
  }

  lemma LettersUntrimmed(w: seq<byte>)
    requires Letters(w)
    ensures Trim(w) == w
  {
    if w != [] {
      assert IsLetter(w[0]) && IsLetter(w[|w| - 1]);
    }
  }

  lemma LettersVisible(w: seq<byte>)
    requires Letters(w)
    ensures Visible(w) == w
  {
    forall i | 0 <= i < |w|
      ensures Visible(w)[i] == w[i]
    {
      assert IsLetter(w[i]);
    }
  }

  lemma LettersLowered(w: seq<byte>)
    requires Letters(w)
    ensures DropAssigns(LowerText(w)) == LowerText(w) && WithoutDashes(LowerText(w)) == LowerText(w)
  {
    var l := LowerText(w);
    assert Letters(l) by {
      assert forall i :: 0 <= i < |w| ==> l[i] == Lower(w[i]) && IsLetter(w[i]);
    }
    if l != [] {
      assert IsLetter(l[|l| - 1]);
    }
    LettersUndashed(l);
  }

  lemma {:induction false} LettersUndashed(t: seq<byte>)
    requires Letters(t)
    ensures WithoutDashes(t) == t
  {
    if t != [] {
      assert IsLetter(t[0]);
      LettersUndashed(t[1..]);
    }
  }

  lemma LettersHoldNo(w: seq<byte>, b: byte)
    requires Letters(w) && !IsLetter(b)
    ensures b !in w && multiset(w)[b] == 0
  {
    hide IsLetter;
  }

  lemma LettersAreNoIp(w: seq<byte>)
    requires Letters(w)
    ensures !IpAddress(w)
  {
    LettersHoldNo(w, COLON);
    forall i | 0 <= i < |w|
      ensures !Ipv4At(w[i..], 0)
    {
      assert w[i..][0] == w[i] && IsLetter(w[i]);
    }
  }

  lemma LettersAreNoMac(w: seq<byte>)
    requires Letters(w)
    ensures !MacAddress(w)
  {
    hide IsHex, IsDigit;
    if |w| == 17 {
      assert IsLetter(w[2]);
      assert 2 % 3 == 2 && w[2] != COLON && w[2] != HYPHEN;
    }
  }

  lemma LettersAreNoAddress(w: seq<byte>)
    requires Letters(w)
    ensures !Email(w) && !WindowsPath(w) && Find(w, Assigns) == |w|
  {
    LettersHoldNo(w, AT);
    LettersHoldNo(w, COLON);
    LettersHoldNo(w, EQUALS);
    LettersHoldNo(w, SLASH);
    LettersHoldNo(w, BACKSLASH);
  }

  lemma PlainWordKept(w: seq<byte>)
    requires PlainWord(w)
    ensures Trim(w) == w && Visible(w) == w && !RedactsTail(w) && !RedactsToken(w)
  {
    hide Email, IpAddress, MacAddress, WindowsPath, IsKey, IsLetter, Trim, Visible, WithoutDashes, DropAssigns,
         NamesSecret;
    NamedExactly(w);
    assert Letters(w) && !IsLetter(HYPHEN) by { HyphenIsNoLetter(); }
    LettersUntrimmed(w);
    LettersVisible(w);
    LettersLowered(w);
    LettersAreNoIp(w);
    LettersAreNoMac(w);
    LettersAreNoAddress(w);
    LettersHoldNo(w, HYPHEN);
  }

  lemma HyphenIsNoLetter()
    ensures !IsLetter(HYPHEN) && !IsLetter(SPACE)
  {
  }

  lemma {:induction false} FindIn(t: seq<byte>, kind: byte -> bool, n: nat)
    requires n <= |t| && (forall i :: 0 <= i < n ==> !kind(t[i])) && (n < |t| ==> kind(t[n]))
    ensures Find(t, kind) == n
  {
    if n > 0 {
      assert forall i :: 0 <= i < n - 1 ==> t[1..][i] == t[i + 1];
      FindIn(t[1..], kind, n - 1);
    }
  }

  /** A word of letters before a space is the next token. */
  lemma WordIsToken(w: seq<byte>, tail: seq<byte>)
    requires Letters(w) && (tail != [] ==> tail[0] == SPACE)
    ensures Find(w + tail, IsSpace) == |w| && (w + tail)[..|w|] == w && (w + tail)[|w|..] == tail
  {
    var t := w + tail;
    forall i | 0 <= i < |w|
      ensures !IsSpace(t[i])
    {
      assert t[i] == w[i] && IsLetter(w[i]);
    }
    FindIn(t, IsSpace, |w|);
  }

  /** The word "client" in any case. */
  predicate SpelledClient(w: seq<byte>) {
    |w| == 6 && forall i :: 0 <= i < 6 ==> SameLetter(w[i], "client"[i])
  }

  /** What follows a word: nothing, or a space and then no digit that would make a client identifier of it. */
  predicate Continues(w: seq<byte>, tail: seq<byte>) {
    tail != [] ==> tail[0] == SPACE && |tail| > 1 && (IsDigit(tail[1]) ==> !SpelledClient(w))
  }

  lemma WordIsNoClient(w: seq<byte>, tail: seq<byte>)
    requires Letters(w) && Continues(w, tail)
    ensures ClientLength(w + tail) == 0
  {
    var t := w + tail;
    ClientSpelled();
    if |t| >= 7 {
      var l := LowerText(t[..7]);
      assert forall i :: 0 <= i < 7 ==> l[i] == Lower(t[i]);
      if |w| < 6 {
        assert l[|w|] == SPACE && IsLetter(CLIENT[|w|]);
      } else if |w| > 6 {
        assert IsLetter(w[6]) && t[6] == w[6];
        assert l[6] != SPACE;
      } else {
        assert t[7..][0] == tail[1];
        forall i | 0 <= i < 6 && l == CLIENT
          ensures SameLetter(w[i], "client"[i])
        {
          assert l[i] == Lower(w[i]) && IsLetter(w[i]);
        }
      }
    }
  }

  lemma ClientSpelled()
    ensures |CLIENT| == 7 && CLIENT[6] == SPACE && forall i :: 0 <= i < 6 ==> IsLetter(CLIENT[i])
    ensures forall i :: 0 <= i < 6 ==> CLIENT[i] as int == "client"[i] as int
    ensures Lower(SPACE) == SPACE && forall b :: Lower(b) == SPACE ==> b == SPACE
  {
  }

  /** One word of prose is copied, as far as it fits. */
  lemma WordTurn(w: seq<byte>, tail: seq<byte>, output: seq<byte>, maximum: nat)
    requires PlainWord(w) && Continues(w, tail)
    ensures Turn(Scan(w + tail, output, false), maximum) ==
            Scan(tail, Limited(output + w, maximum), |output| + |w| > maximum)
  {
    hide Find, ClientLength, RedactsTail, RedactsToken, Trim, Visible, IsKey, IsLetter;
    WordIsToken(w, tail);
    WordIsNoClient(w, tail);
    PlainWordKept(w);
    assert IsLetter(w[0]) && (w + tail)[0] == w[0];
    LetterIsNoSpace(w[0]);
  }

  lemma LetterIsNoSpace(b: byte)
    requires IsLetter(b)
    ensures !IsSpace(b)
  {
  }

  /** One space between words is copied. */
  lemma SpaceTurn(tail: seq<byte>, output: seq<byte>, maximum: nat)
    requires tail != [] && !IsSpace(tail[0]) && output != [] && output[|output| - 1] != SPACE && |output| < maximum
    ensures Turn(Scan([SPACE] + tail, output, false), maximum) == Scan(tail, output + [SPACE], false)
  {
    hide Find, Trim, RedactsTail, RedactsToken;
    var t := [SPACE] + tail;
    assert t[0] == SPACE && t[1] == tail[0] && t[1..] == tail;
    FindIn(t, NotSpace, 1);
    SpaceIsNoClient(t);
  }

  lemma SpaceIsNoClient(t: seq<byte>)
    requires t != [] && t[0] == SPACE
    ensures ClientLength(t) == 0
  {
    ClientSpelled();
    if |t| >= 7 {
      assert LowerText(t[..7])[0] == SPACE && IsLetter(CLIENT[0]);
    }
  }

  ghost predicate PlainWords(words: seq<seq<byte>>) {
    forall i :: 0 <= i < |words| ==> PlainWord(words[i])
  }

  /** The text begins with a digit, and the word "client" stands before it. */
  predicate ReadAsClient(words: seq<seq<byte>>, tail: seq<byte>) {
    words != [] && tail != [] && IsDigit(tail[0]) && SpelledClient(words[|words| - 1])
  }

  /** Prose in front of something else is copied, and the scan goes on behind it. */
  lemma {:induction false} ProseScans(words: seq<seq<byte>>, tail: seq<byte>, output: seq<byte>, maximum: nat)
    requires PlainWords(words) && tail != [] && !IsSpace(tail[0]) && !ReadAsClient(words, tail)
    requires |output| + |Spaced(words)| < maximum
    ensures Scanned(Scan(Spaced(words) + tail, output, false), maximum) ==
            Scanned(Scan(tail, output + Spaced(words), false), maximum)
    decreases |words|
  {
    hide Turn, PlainWord, IsLetter, IsDigit, IsSpace, SpelledClient;
    if words == [] {
      assert Spaced(words) + tail == tail && output + Spaced(words) == output;
    } else {
      var w, others := words[0], words[1..];
      var more := Spaced(others) + tail;
      var spaced := [SPACE] + more;
      assert PlainWord(w) && PlainWords(others);
      SpacedStarts(others, tail);
      WordEnds(w);
      assert Spaced(words) + tail == w + spaced;
      var written := output + w;
      WordTurn(w, spaced, output, maximum);
      SpaceTurn(more, written, maximum);
      assert Scanned(Scan(w + spaced, output, false), maximum) == Scanned(Scan(spaced, written, false), maximum);
      assert Scanned(Scan(spaced, written, false), maximum) == Scanned(Scan(more, written + [SPACE], false), maximum);
      ProseScans(others, tail, written + [SPACE], maximum);
      assert written + [SPACE] + Spaced(others) == output + Spaced(words);
    }
  }

  lemma SpacedStarts(words: seq<seq<byte>>, tail: seq<byte>)
    requires PlainWords(words) && tail != [] && !IsSpace(tail[0])
    ensures var t := Spaced(words) + tail;
            t != [] && !IsSpace(t[0]) && (words == [] ==> t == tail) && (words != [] ==> !IsDigit(t[0]))
  {
    hide NamesSecret;
    if words != [] {
      assert PlainWord(words[0]);
      assert (Spaced(words) + tail)[0] == words[0][0] && IsLetter(words[0][0]);
    }
  }

  lemma WordEnds(w: seq<byte>)
    requires PlainWord(w)
    ensures w != [] && w[|w| - 1] != SPACE && IsLetter(w[0]) && !IsSpace(w[0]) && !IsDigit(w[0])
  {
    hide NamesSecret;
    assert IsLetter(w[|w| - 1]);
  }

  /** Prose, words that no rule redacts with single spaces between them, is left alone when it fits. */
  lemma ProseIsKept(words: seq<seq<byte>>, last: seq<byte>, maximum: nat)
    requires PlainWords(words) && PlainWord(last) && |Spaced(words)| + |last| <= maximum
    ensures Sanitize(Spaced(words) + last, maximum) == Spaced(words) + last
  {
    hide Turn, PlainWord, IsLetter, Spaced;
    WordEnds(last);
    NotEmpty(last);
    ProseScans(words, last, [], maximum);
    var prose := [] + Spaced(words);
    assert prose == Spaced(words);
    assert last + [] == last;
    WordTurn(last, [], prose, maximum);
    assert Scanned(Scan(last, prose, false), maximum) == Scan([], prose + last, false);
  }

  lemma NotEmpty(w: seq<byte>)
    requires PlainWord(w)
    ensures |w| > 0
  {
  }

  // ---- sanitizing twice ----

  function Copies(w: seq<byte>, n: nat): (words: seq<seq<byte>>)
    ensures |words| == n && forall i :: 0 <= i < n ==> words[i] == w
    decreases n
  {
    if n == 0 then [] else [w] + Copies(w, n - 1)
  }

  lemma {:induction false} CopiesLength(w: seq<byte>, n: nat)
    ensures |Spaced(Copies(w, n))| == n * (|w| + 1)
    decreases n
  {
    if n > 0 {
      assert Copies(w, n)[1..] == Copies(w, n - 1);
      CopiesLength(w, n - 1);
    }
  }


  const SHORT_WORD: seq<byte> := [0x61, 0x61]

  const PASSWORD := Ascii("password")
  const BEFORE_CUT := PASSWORD + [0x61, 0x62, 0x63, 0x64]
  const AFTER_CUT := PASSWORD + ELLIPSIS
  const CUT_TEXT := Spaced(Copies(SHORT_WORD, 39)) + BEFORE_CUT

  lemma PasswordSpelled()
    ensures |PASSWORD| == 8 && (forall i :: 0 <= i < 8 ==> 0x61 <= PASSWORD[i] <= 0x7a) && PASSWORD[0] != CLIENT[0]
    ensures IsKey(PASSWORD)
  {
  }

  lemma KeyLengths(key: seq<byte>)
    requires IsKey(key)
    ensures |key| >= 3 && |key| != 12
  {
  }

  lemma MarksSpelled()
    ensures ELLIPSIS == [DOT, DOT, DOT] && |REDACTED| == 10 && REDACTED[0] == 0x3c
  {
  }

  lemma LowerIsLowered(t: seq<byte>)
    requires forall i :: 0 <= i < |t| ==> 0x61 <= t[i] <= 0x7a
    ensures LowerText(t) == t && Letters(t)
  {
  }

  lemma ShortIsNoName(w: seq<byte>)
    requires Letters(w) && LowerText(w) == w && (|w| < 3 || |w| == 12)
    ensures !NamesSecret(w)
  {
    hide IsKey, NamesSecret, DropAssigns, WithoutDashes, Letters;
    LettersLowered(w);
    NamedExactly(w);
    if IsKey(w) {
      KeyLengths(w);
    }
  }

  lemma ShortWordIsPlain()
    ensures PlainWord(SHORT_WORD)
  {
    LowerIsLowered(SHORT_WORD);
    ShortIsNoName(SHORT_WORD);
  }

  lemma LetterIsPlain(b: byte)
    requires 0x61 <= b <= 0x7a
    ensures PlainWord([b])
  {
    LowerIsLowered([b]);
    ShortIsNoName([b]);
  }

  lemma CutWords()
    ensures PlainWord(BEFORE_CUT) && |BEFORE_CUT| == 12 && |AFTER_CUT| == 11 && |REDACTED| == 10
    ensures IsLetter(AFTER_CUT[0]) && Find(AFTER_CUT, IsSpace) == 11
    ensures ClientLength(AFTER_CUT) == 0 && REDACTED != AFTER_CUT
  {
    hide IsKey;
    PasswordSpelled();
    MarksSpelled();
    LowerIsLowered(BEFORE_CUT);
    ShortIsNoName(BEFORE_CUT);
    FindIn(AFTER_CUT, IsSpace, 11);
    assert LowerText(AFTER_CUT[..7])[0] == AFTER_CUT[0];
  }

  lemma TrimDot(t: seq<byte>)
    ensures TrimBack(t + [DOT]) == TrimBack(t)
  {
    assert (t + [DOT])[..|t|] == t;
  }

  lemma TrimDots(t: seq<byte>)
    requires t != [] && Letters(t)
    ensures Trim(t + [DOT, DOT, DOT]) == t
  {
    hide Letters, IsPunctuation;
    var u := t + [DOT, DOT, DOT];
    assert u == ((t + [DOT]) + [DOT]) + [DOT] && u[0] == t[0];
    FirstIsNoPunctuation(t);
    LettersUntrimmed(t);
    hide TrimBack;
    assert TrimFront(u) == u && TrimFront(t) == t;
    TrimDot((t + [DOT]) + [DOT]);
    TrimDot(t + [DOT]);
    TrimDot(t);
  }

  lemma FirstIsNoPunctuation(t: seq<byte>)
    requires t != [] && Letters(t)
    ensures !IsPunctuation(t[0])
  {
    assert IsLetter(t[0]);
  }

  lemma NameIsSensitive(t: seq<byte>)
    requires t != [] && Letters(t) && LowerText(t) == t && IsKey(t)
    ensures SensitiveKey(t)
  {
    hide IsKey, Letters, Trim, WithoutDashes, DropAssigns, LowerText;
    LettersUntrimmed(t);
    LettersLowered(t);
  }

  /** The dots of the ellipsis are trimmed like any others, which leaves the name of a secret. */
  lemma CutWordIsSensitive()
    ensures RedactsTail(Trim(AFTER_CUT))
  {
    hide IsKey, SensitiveAssignment, WindowsPath, SensitiveKey, Trim, Letters;
    PasswordSpelled();
    MarksSpelled();
    LowerIsLowered(PASSWORD);
    TrimDots(PASSWORD);
    NameIsSensitive(PASSWORD);
  }

  /** The sanitizer does not leave its own output alone: what a cut has shortened may be redacted the next time. */
  lemma SanitizingTwiceDiffers()
    ensures Sanitize(CUT_TEXT, 128) != Sanitize(Sanitize(CUT_TEXT, 128), 128)
  {
    hide Turn, PlainWord, IsLetter, Spaced, Copies, Find, Trim, RedactsTail, ClientLength;
    var words := Copies(SHORT_WORD, 39);
    var p := Spaced(words);
    ShortWordIsPlain();
    CopiesLength(SHORT_WORD, 39);
    CutWords();
    assert |p| == 117;
    assert [] + p == p && BEFORE_CUT + [] == BEFORE_CUT;
    assert IsLetter(BEFORE_CUT[0]) by { WordEnds(BEFORE_CUT); }
    ProseScans(words, BEFORE_CUT, [], 128);
    WordTurn(BEFORE_CUT, [], p, 128);
    var cut := Scan([], (p + BEFORE_CUT)[..128], true);
    assert Scanned(Scan(BEFORE_CUT, p, false), 128) == cut;
    assert cut.output[..125] == p + PASSWORD;
    var once := p + AFTER_CUT;
    assert Sanitize(CUT_TEXT, 128) == once;
    CutWordIsSensitive();
    ProseScans(words, AFTER_CUT, [], 128);
    SensitiveTurn(AFTER_CUT, p, 128);
    assert Sanitize(once, 128) == p + REDACTED;
    assert once[117..] == AFTER_CUT && (p + REDACTED)[117..] == REDACTED;
  }

  /** A token that names a secret ends the text. */
  lemma SensitiveTurn(token: seq<byte>, output: seq<byte>, maximum: nat)
    requires token != [] && IsLetter(token[0]) && Find(token, IsSpace) == |token|
    requires ClientLength(token) == 0 && RedactsTail(Trim(token)) && |output| + |REDACTED| <= maximum
    ensures Scanned(Scan(token, output, false), maximum) == Scan([], output + REDACTED, false)
  {
    hide Find, Trim, RedactsTail, ClientLength, IsLetter;
    LetterIsNoSpace(token[0]);
    assert token[..|token|] == token;
  }

  // ---- the sanitizer as the service runs it ----

  method SpacesEnd(text: seq<byte>, index: nat) returns (end: nat)
    requires index <= |text|
    ensures index <= end <= |text| && end == index + Find(text[index..], NotSpace)
  {
    end := index;
    while end < |text| && IsSpace(text[end])
      invariant index <= end <= |text|
      invariant Find(text[index..], NotSpace) == end - index + Find(text[end..], NotSpace)
    {
      assert text[end..][1..] == text[end + 1..];
      end := end + 1;
    }
  }

  method TokenEnd(text: seq<byte>, index: nat) returns (end: nat)
    requires index <= |text|
    ensures index <= end <= |text| && end == index + Find(text[index..], IsSpace)
  {
    end := index;
    while end < |text| && !IsSpace(text[end])
      invariant index <= end <= |text|
      invariant Find(text[index..], IsSpace) == end - index + Find(text[end..], IsSpace)
    {
      assert text[end..][1..] == text[end + 1..];
      end := end + 1;
    }
  }

  /** Copies a token byte by byte until the output is full. */
  method AppendVisible(output: seq<byte>, token: seq<byte>, maximum: nat) returns (grown: seq<byte>, cut: bool)
    requires |output| <= maximum
    ensures grown == Limited(output + Visible(token), maximum) && cut == (|output| + |token| > maximum)
  {
    grown, cut := output, false;
    for i := 0 to |token|
      invariant |grown| == |output| + i <= maximum && !cut
      invariant grown == output + Visible(token)[..i]
    {
      if |grown| >= maximum {
        cut := true;
        assert grown == Limited(output + Visible(token), maximum);
        return;
      }
      grown := grown + [Shown(token[i])];
    }
    assert Visible(token)[..|token|] == Visible(token);
  }

  /** Redacts or copies the token at a position. */
  method PassToken(text: seq<byte>, index: nat, output: seq<byte>, cut: bool, maximum: nat)
    returns (next: nat, grown: seq<byte>, nowCut: bool)
    requires index < |text| && |output| <= maximum
    ensures next <= |text|
    ensures Scan(text[next..], grown, nowCut) == TakeToken(Scan(text[index..], output, cut), maximum)
  {
    hide Trim, RedactsTail, RedactsToken, Limited, Visible, Find;
    var end := TokenEnd(text, index);
    ghost var rest := text[index..];
    var token := text[index..end];
    assert rest[..end - index] == token && rest[end - index..] == text[end..];
    var core := Trim(token);
    next, nowCut := end, cut;
    if RedactsTail(core) {
      grown := Limited(output + REDACTED, maximum);
      next := |text|;
      assert text[next..] == [];
    } else if RedactsToken(core) {
      grown := Limited(output + REDACTED, maximum);
    } else {
      var more;
      grown, more := AppendVisible(output, token, maximum);
      nowCut := cut || more;
    }
  }

  /** Client identifier, white space or token: one turn at a position. */
  method PassTurn(text: seq<byte>, index: nat, output: seq<byte>, cut: bool, maximum: nat)
    returns (next: nat, grown: seq<byte>, nowCut: bool)
    requires index < |text| && |output| <= maximum
    ensures index < next <= |text|
    ensures Scan(text[next..], grown, nowCut) == Turn(Scan(text[index..], output, cut), maximum)
  {
    hide ClientLength, TakeToken, Limited, Find;
    ghost var rest := text[index..];
    next, grown, nowCut := index, output, cut;
    var client := ClientLength(text[index..]);
    if client > 0 {
      next, grown := index + client, Limited(output + CLIENT_MARK, maximum);
      assert rest[client..] == text[next..];
    } else if IsSpace(text[index]) {
      next := SpacesEnd(text, index);
      assert rest[next - index..] == text[next..];
      if output != [] && output[|output| - 1] != SPACE {
        grown := Limited(output + [SPACE], maximum);
      }
    } else {
      next, grown, nowCut := PassToken(text, index, output, cut, maximum);
    }
    assert Scan(text[next..], grown, nowCut) == Turn(Scan(rest, output, cut), maximum);
  }

  method SanitizePublicText(text: seq<byte>, maximum: nat) returns (output: seq<byte>)
    ensures output == Sanitize(text, maximum)
  {
    hide Turn;
    if maximum == 0 {
      return [];
    }
    var index, cut := 0, false;
    output := [];
    assert text[0..] == text;
    while index < |text| && |output| < maximum
      invariant index <= |text| && |output| <= maximum
      invariant Scanned(Scan(text[index..], output, cut), maximum) == Scanned(Scan(text, [], false), maximum)
    {
      index, output, cut := PassTurn(text, index, output, cut, maximum);
    }
    if (cut || index < |text|) && maximum >= 3 {
      output := output[..Min(|output|, maximum - 3)] + ELLIPSIS;
    }
  }
}
