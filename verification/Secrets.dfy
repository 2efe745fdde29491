/** What the text sanitizer hides, by the shape of the text, and that nothing of it reaches the output. */
module Secrets {
  import opened Bytes
  import opened Sanitizer

  // ---- characters ----

  predicate Is(b: byte, c: char) {
    b as int == c as int
  }

  predicate Small(b: byte) {
    'a' as int <= b as int <= 'z' as int
  }

  predicate Capital(b: byte) {
    'A' as int <= b as int <= 'Z' as int
  }

  predicate Decimal10(b: byte) {
    '0' as int <= b as int <= '9' as int
  }

  predicate Hexadecimal(b: byte) {
    Decimal10(b) || 'a' as int <= b as int <= 'f' as int || 'A' as int <= b as int <= 'F' as int
  }

  /** Quotes and brackets, a comma or a semicolon around a token. */
  predicate Wraps(b: byte) {
    Is(b, '"') || Is(b, '\'') || Is(b, '(') || Is(b, ')') || Is(b, '[') || Is(b, ']') || Is(b, '{') || Is(b, '}') ||
    Is(b, '<') || Is(b, '>') || Is(b, ',') || Is(b, ';')
  }

  predicate Separates(b: byte) {
    Is(b, '=') || Is(b, ':')
  }

  predicate Slashes(b: byte) {
    Is(b, '\\') || Is(b, '/')
  }

  /** What an address with colons is made of. */
  predicate Addresses(b: byte) {
    Hexadecimal(b) || Is(b, ':') || Is(b, '.') || Is(b, '%') || Is(b, '[') || Is(b, ']')
  }

  predicate Encodes(b: byte) {
    Small(b) || Capital(b) || Decimal10(b) || Is(b, '+') || Is(b, '/') || Is(b, '_') || Is(b, '=') || Is(b, '-')
  }

  // ---- shapes ----

  /** Nothing to trim at either end. */
  predicate Bare(core: seq<byte>) {
    core != [] && !Wraps(core[0]) && !Wraps(core[|core| - 1]) && !Is(core[|core| - 1], '.')
  }

  /** Quotes and brackets around a token, and full stops behind it. */
  predicate Around(front: seq<byte>, back: seq<byte>) {
    (forall i :: 0 <= i < |front| ==> Wraps(front[i])) &&
    (forall i :: 0 <= i < |back| ==> Wraps(back[i]) || Is(back[i], '.'))
  }

  /** The name of a secret, a separator, and whatever follows. */
  predicate AssignedAs(core: seq<byte>, name: seq<byte>, separator: byte, value: seq<byte>) {
    NamesSecret(name) && Separates(separator) && core == name + ([separator] + value)
  }

  ghost predicate Assignment(core: seq<byte>) {
    exists name, separator, value :: AssignedAs(core, name, separator, value)
  }

  predicate SharedAs(core: seq<byte>, slash: byte, path: seq<byte>) {
    Slashes(slash) && core == [slash, slash] + path
  }

  predicate DriveAs(core: seq<byte>, before: seq<byte>, drive: byte, colon: byte, slash: byte, path: seq<byte>) {
    (Small(drive) || Capital(drive)) && Is(colon, ':') && Slashes(slash) &&
    core == before + ([drive, colon, slash] + path)
  }

  /** A path that starts with two slashes of a kind, or holds a drive letter. */
  ghost predicate Path(core: seq<byte>) {
    (exists slash, path :: SharedAs(core, slash, path)) ||
    exists before, drive, colon, slash, path :: DriveAs(core, before, drive, colon, slash, path)
  }

  ghost predicate HidesTail(core: seq<byte>) {
    Assignment(core) || NamesSecret(core) || Path(core)
  }

  predicate MailAs(core: seq<byte>, local: seq<byte>, at: byte, domain: seq<byte>) {
    && local != [] && Is(at, '@') && (forall i :: 0 <= i < |local| ==> !Is(local[i], '@'))
    && (exists i :: 0 <= i < |domain| && Is(domain[i], '.'))
    && core == local + ([at] + domain)
  }

  ghost predicate Mail(core: seq<byte>) {
    exists local, at, domain :: MailAs(core, local, at, domain)
  }

  /** One to three decimal digits with a value up to 255. */
  predicate Octet(t: seq<byte>) {
    && 1 <= |t| <= 3 && (forall i :: 0 <= i < |t| ==> Decimal10(t[i]))
    && (|t| == 3 ==> var h, d, u := t[0] as int, t[1] as int, t[2] as int;
                     100 * (h - '0' as int) + 10 * (d - '0' as int) + (u - '0' as int) <= 255)
  }

  function Dotted(a: seq<byte>, b: seq<byte>, c: seq<byte>, d: seq<byte>): seq<byte> {
    a + ([DOT] + (b + ([DOT] + (c + ([DOT] + d)))))
  }

  predicate Ipv4As(core: seq<byte>, before: seq<byte>, a: seq<byte>, b: seq<byte>, c: seq<byte>, d: seq<byte>,
                   after: seq<byte>) {
    && Octet(a) && Octet(b) && Octet(c) && Octet(d) && (after != [] ==> !Decimal10(after[0]))
    && core == before + (Dotted(a, b, c, d) + after)
  }

  /** Four octets somewhere in the token. */
  ghost predicate Ipv4(core: seq<byte>) {
    exists before, a, b, c, d, after :: Ipv4As(core, before, a, b, c, d, after)
  }

  /** At least two colons among hexadecimal digits, as in an address of version 6. */
  predicate Ipv6(core: seq<byte>) {
    (exists i, j :: 0 <= i < j < |core| && Is(core[i], ':') && Is(core[j], ':')) &&
    forall i :: 0 <= i < |core| ==> Addresses(core[i])
  }

  /** Six pairs of hexadecimal digits with one separator. */
  predicate MacOf(core: seq<byte>, separator: char) {
    |core| == 17 &&
    forall pair :: 0 <= pair < 6 ==>
      Hexadecimal(core[3 * pair]) && Hexadecimal(core[3 * pair + 1]) && (pair < 5 ==> Is(core[3 * pair + 2], separator))
  }

  predicate FourAt(t: seq<byte>, c: char, i: nat, j: nat, k: nat, l: nat) {
    i < j < k < l < |t| && Is(t[i], c) && Is(t[j], c) && Is(t[k], c) && Is(t[l], c)
  }

  /** At least 40 characters of an encoding, or at least 32 with four hyphens, as in a GUID. */
  ghost predicate Encoded(core: seq<byte>) {
    && (forall i :: 0 <= i < |core| ==> Encodes(core[i]))
    && (|core| >= 40 || (|core| >= 32 && exists i: nat, j: nat, k: nat, l: nat :: FourAt(core, '-', i, j, k, l)))
  }

  ghost predicate HidesToken(core: seq<byte>) {
    Mail(core) || Ipv4(core) || Ipv6(core) || MacOf(core, ':') || MacOf(core, '-') || Encoded(core)
  }

  // ---- the classification finds exactly these shapes ----

  lemma CharactersAgree(b: byte)
    ensures (Wraps(b) <==> IsPunctuation(b)) && (Separates(b) <==> Assigns(b)) && (Decimal10(b) <==> IsDigit(b))
    ensures (Slashes(b) <==> b == BACKSLASH || b == SLASH) && (Small(b) || Capital(b) <==> IsLetter(b))
    ensures (Hexadecimal(b) <==> IsHex(b)) && (Addresses(b) <==> InAddress(b)) && (Encodes(b) <==> IsEncoded(b))
    ensures (Is(b, '.') <==> b == DOT) && (Is(b, ':') <==> b == COLON) && (Is(b, '-') <==> b == HYPHEN)
    ensures (Is(b, '@') <==> b == AT) && (Is(b, '.') <==> b == DOT)
  {
  }

  lemma {:induction false} NameHoldsNoSeparator(t: seq<byte>, name: string)
    requires Spells(t, name)
    ensures forall i :: 0 <= i < |t| ==> !Assigns(t[i])
  {
    if t != [] {
      NameHoldsNoSeparator(t[1..], if t[0] == HYPHEN || t[0] == UNDERSCORE then name else name[1..]);
    }
  }

  lemma SecretHoldsNoSeparator(t: seq<byte>)
    requires NamesSecret(t)
    ensures forall i :: 0 <= i < |t| ==> !Assigns(t[i])
  {
    hide Spells, NAMES, Assigns;
    var k :| 0 <= k < |NAMES| && Spells(t, NAMES[k]);
    NameHoldsNoSeparator(t, NAMES[k]);
  }

  lemma AssignmentExact(core: seq<byte>)
    ensures SensitiveAssignment(core) <==> Assignment(core)
  {
    hide IsKey, NamesSecret, WithoutDashes, LowerText;
    var i := Find(core, Assigns);
    if i < |core| {
      NamedExactly(core[..i]);
      CharactersAgree(core[i]);
      if SensitiveAssignment(core) {
        assert core == core[..i] + ([core[i]] + core[i + 1..]);
        assert AssignedAs(core, core[..i], core[i], core[i + 1..]);
      }
    }
    if name, separator, value :| AssignedAs(core, name, separator, value) {
      SecretHoldsNoSeparator(name);
      CharactersAgree(separator);
      assert core[|name|] == separator && core[..|name|] == name;
      FindIn(core, Assigns, |name|);
    }
  }

  lemma {:induction false} DropAssignsTo(t: seq<byte>) returns (k: nat)
    ensures k <= |t| && DropAssigns(t) == t[..k] && (forall i :: k <= i < |t| ==> Assigns(t[i]))
    ensures k > 0 ==> !Assigns(t[k - 1])
  {
    k := |t|;
    assert t[..k] == t;
    while k > 0 && Assigns(t[k - 1])
      invariant 0 <= k <= |t| && DropAssigns(t) == DropAssigns(t[..k])
      invariant forall i :: k <= i < |t| ==> Assigns(t[i])
    {
      assert t[..k][..k - 1] == t[..k - 1];
      k := k - 1;
    }
  }

  lemma LoweredPrefix(t: seq<byte>, k: nat)
    requires k <= |t|
    ensures LowerText(t)[..k] == LowerText(t[..k])
    ensures forall i :: 0 <= i < |t| ==> (Assigns(LowerText(t)[i]) <==> Assigns(t[i]))
  {
    forall i | 0 <= i < |t|
      ensures Assigns(LowerText(t)[i]) <==> Assigns(t[i])
    {
      LoweredSeparator(t[i]);
    }
    hide Lower, Assigns;
  }

  lemma LoweredSeparator(b: byte)
    ensures Assigns(Lower(b)) <==> Assigns(b)
  {
  }

  /** A name alone adds only itself to the assignments. */
  lemma KeyExact(core: seq<byte>)
    requires Trim(core) == core
    ensures SensitiveKey(core) || SensitiveAssignment(core) <==> Assignment(core) || NamesSecret(core)
  {
    hide IsKey, NamesSecret, WithoutDashes, LowerText, SensitiveAssignment, Assignment, Assigns, Trim;
    AssignmentExact(core);
    var k := DropAssignsTo(LowerText(core));
    LoweredPrefix(core, k);
    NamedExactly(core[..k]);
    if NamesSecret(core[..k]) && k < |core| {
      CharactersAgree(core[k]);
      assert core == core[..k] + ([core[k]] + core[k + 1..]);
      assert AssignedAs(core, core[..k], core[k], core[k + 1..]);
      assert Assignment(core) by { Assigned(core, core[..k], core[k], core[k + 1..]); }
    } else if NamesSecret(core) {
      SecretHoldsNoSeparator(core);
    }
    if k == |core| {
      assert core[..k] == core;
    }
  }

  lemma Assigned(core: seq<byte>, name: seq<byte>, separator: byte, value: seq<byte>)
    requires AssignedAs(core, name, separator, value)
    ensures Assignment(core)
  {
  }

  lemma PathIsFound(core: seq<byte>)
    requires Path(core)
    ensures WindowsPath(core)
  {
    hide IsLetter, Small, Capital;
    if slash, path :| SharedAs(core, slash, path) {
      CharactersAgree(slash);
      assert core[0] == core[1] == slash;
    } else {
      var before, drive, colon, slash, path :| DriveAs(core, before, drive, colon, slash, path);
      CharactersAgree(drive);
      CharactersAgree(colon);
      CharactersAgree(slash);
      assert core[|before|] == drive && core[|before| + 1] == colon && core[|before| + 2] == slash;
    }
  }

  lemma FoundIsPath(core: seq<byte>)
    requires WindowsPath(core)
    ensures Path(core)
  {
    hide IsLetter, Small, Capital, Path;
    if |core| >= 2 && core[0] == core[1] && (core[0] == BACKSLASH || core[0] == SLASH) {
      CharactersAgree(core[0]);
      assert core == [core[0], core[0]] + core[2..];
      SharedIsPath(core, core[0], core[2..]);
    } else {
      var i :| 0 <= i < |core| - 2 && IsLetter(core[i]) && core[i + 1] == COLON &&
               (core[i + 2] == BACKSLASH || core[i + 2] == SLASH);
      CharactersAgree(core[i]);
      CharactersAgree(core[i + 1]);
      CharactersAgree(core[i + 2]);
      ThreeWithin(core, i);
      DriveIsPath(core, core[..i], core[i], core[i + 1], core[i + 2], core[i + 3..]);
    }
  }

  lemma ThreeWithin(t: seq<byte>, i: nat)
    requires i + 2 < |t|
    ensures t == t[..i] + ([t[i], t[i + 1], t[i + 2]] + t[i + 3..])
  {
    assert t[i..] == [t[i], t[i + 1], t[i + 2]] + t[i + 3..];
  }

  lemma SharedIsPath(core: seq<byte>, slash: byte, path: seq<byte>)
    requires SharedAs(core, slash, path)
    ensures Path(core)
  {
  }

  lemma DriveIsPath(core: seq<byte>, before: seq<byte>, drive: byte, colon: byte, slash: byte, path: seq<byte>)
    requires DriveAs(core, before, drive, colon, slash, path)
    ensures Path(core)
  {
  }

  lemma PathExact(core: seq<byte>)
    ensures WindowsPath(core) <==> Path(core)
  {
    hide WindowsPath, Path;
    if WindowsPath(core) {
      FoundIsPath(core);
    }
    if Path(core) {
      PathIsFound(core);
    }
  }

  lemma TailExact(core: seq<byte>)
    requires Trim(core) == core
    ensures RedactsTail(core) <==> HidesTail(core)
  {
    hide SensitiveAssignment, SensitiveKey, WindowsPath, Assignment, NamesSecret, Path, Trim;
    KeyExact(core);
    PathExact(core);
  }

  lemma MailIsFound(core: seq<byte>)
    requires Mail(core)
    ensures Email(core)
  {
    var local, at, domain :| MailAs(core, local, at, domain);
    assert core[|local|] == at && core[|local| + 1..] == domain;
    assert forall i :: 0 <= i < |local| ==> core[i] == local[i];
    FindIn(core, IsAt, |local|);
    var i :| 0 <= i < |domain| && Is(domain[i], '.');
    assert domain[i] == DOT;
  }

  lemma FoundIsMail(core: seq<byte>)
    requires Email(core)
    ensures Mail(core)
  {
    var at := Find(core, IsAt);
    var local, domain := core[..at], core[at + 1..];
    assert core == local + ([core[at]] + domain);
    var i :| 0 <= i < |domain| && domain[i] == DOT;
    assert Is(domain[i], '.');
    assert forall i :: 0 <= i < |local| ==> local[i] == core[i];
    assert MailAs(core, local, core[at], domain);
  }

  lemma MailExact(core: seq<byte>)
    ensures Email(core) <==> Mail(core)
  {
    hide Email, Mail;
    if Email(core) {
      FoundIsMail(core);
    }
    if Mail(core) {
      MailIsFound(core);
    }
  }

  // ---- numeric addresses ----

  lemma {:induction false} RunOf(t: seq<byte>, rest: seq<byte>)
    requires (forall i :: 0 <= i < |t| ==> IsDigit(t[i])) && (rest != [] ==> !IsDigit(rest[0]))
    ensures DigitRun(t + rest) == |t|
  {
    if t == [] {
      assert t + rest == rest;
    } else {
      assert (t + rest)[1..] == t[1..] + rest;
      RunOf(t[1..], rest);
    }
  }

  lemma {:induction false} RunIsDigits(t: seq<byte>)
    ensures forall i :: 0 <= i < DigitRun(t) ==> IsDigit(t[i])
    ensures DigitRun(t) < |t| ==> !IsDigit(t[DigitRun(t)])
  {
    if t != [] && IsDigit(t[0]) {
      RunIsDigits(t[1..]);
    }
  }

  /** At most three digits have the value that their positions give them. */
  lemma OctetExact(t: seq<byte>)
    requires 1 <= |t| <= 3 && forall i :: 0 <= i < |t| ==> IsDigit(t[i])
    ensures Decimal(t) <= 255 <==> Octet(t)
  {
    var a := t[..1];
    assert a[..0] == [] && Decimal(a) == t[0] as int - 0x30;
    if |t| == 1 {
      assert t == a;
    } else {
      var b := t[..2];
      assert b[..1] == a && Decimal(b) == 10 * Decimal(a) + (t[1] as int - 0x30);
      if |t| == 2 {
        assert t == b;
      } else {
        assert t[..2] == b;
      }
    }
  }

  /** The first of the remaining octets, and what it leaves to the others. */
  lemma FirstOctet(o: seq<byte>, rest: seq<byte>, part: nat)
    requires Octet(o) && (rest != [] ==> !IsDigit(rest[0]))
    ensures Ipv4At(o + rest, part) <==> part >= 3 || (rest != [] && rest[0] == DOT && Ipv4At(rest[1..], part + 1))
  {
    hide Decimal;
    RunOf(o, rest);
    OctetExact(o);
    var t := o + rest;
    assert t[..|o|] == o;
    if rest != [] {
      assert t[|o|] == rest[0] && t[|o| + 1..] == rest[1..];
    }
  }

  lemma OctetOfRun(t: seq<byte>, part: nat) returns (o: seq<byte>, rest: seq<byte>)
    requires Ipv4At(t, part)
    ensures Octet(o) && t == o + rest && (rest != [] ==> !IsDigit(rest[0]))
    ensures part < 3 ==> rest != [] && rest[0] == DOT && Ipv4At(rest[1..], part + 1)
  {
    hide Decimal;
    var n := DigitRun(t);
    RunIsDigits(t);
    o, rest := t[..n], t[n..];
    OctetExact(o);
    if part < 3 {
      assert rest[1..] == t[n + 1..];
    }
  }

  lemma Ipv4Exact(core: seq<byte>)
    ensures (exists i :: 0 <= i < |core| && Ipv4At(core[i..], 0)) <==> Ipv4(core)
  {
    hide Ipv4At, Octet, IsDigit, Decimal10;
    if i :| 0 <= i < |core| && Ipv4At(core[i..], 0) {
      var a, r0 := OctetOfRun(core[i..], 0);
      var b, r1 := OctetOfRun(r0[1..], 1);
      var c, r2 := OctetOfRun(r1[1..], 2);
      var d, r3 := OctetOfRun(r2[1..], 3);
      JoinsDotted(core[i..], a, b, c, d, r0, r1, r2, r3);
      assert core == core[..i] + core[i..];
      assert r3 != [] ==> !Decimal10(r3[0]) by { if r3 != [] { CharactersAgree(r3[0]); } }
      assert Ipv4As(core, core[..i], a, b, c, d, r3);
    }
    if before, a, b, c, d, after :| Ipv4As(core, before, a, b, c, d, after) {
      assert after != [] ==> !IsDigit(after[0]) by { if after != [] { CharactersAgree(after[0]); } }
      DottedIsFound(a, b, c, d, after);
      var t := Dotted(a, b, c, d) + after;
      assert core[|before|..] == t;
      assert |t| > 0;
    }
  }

  lemma JoinsDotted(t: seq<byte>, a: seq<byte>, b: seq<byte>, c: seq<byte>, d: seq<byte>, r0: seq<byte>,
                    r1: seq<byte>, r2: seq<byte>, r3: seq<byte>)
    requires t == a + r0 && r0 != [] && r0[0] == DOT && r0[1..] == b + r1 && r1 != [] && r1[0] == DOT
    requires r1[1..] == c + r2 && r2 != [] && r2[0] == DOT && r2[1..] == d + r3
    ensures t == Dotted(a, b, c, d) + r3
  {
    assert r0 == [DOT] + (b + r1) && r1 == [DOT] + (c + r2) && r2 == [DOT] + (d + r3);
  }

  lemma DottedIsFound(a: seq<byte>, b: seq<byte>, c: seq<byte>, d: seq<byte>, after: seq<byte>)
    requires Octet(a) && Octet(b) && Octet(c) && Octet(d) && (after != [] ==> !IsDigit(after[0]))
    ensures Ipv4At(Dotted(a, b, c, d) + after, 0)
  {
    hide Ipv4At, Octet;
    var t2 := [DOT] + (d + after);
    var t1 := [DOT] + (c + t2);
    var t0 := [DOT] + (b + t1);
    assert Dotted(a, b, c, d) + after == a + t0;
    FirstOctet(d, after, 3);
    assert t2[1..] == d + after && t1[1..] == c + t2 && t0[1..] == b + t1;
    FirstOctet(c, t2, 2);
    FirstOctet(b, t1, 1);
    FirstOctet(a, t0, 0);
  }

  lemma {:induction false} CountSplits(t: seq<byte>, i: nat, b: byte)
    requires i < |t|
    ensures multiset(t)[b] == multiset(t[..i])[b] + (if t[i] == b then 1 else 0) + multiset(t[i + 1..])[b]
  {
    assert t == t[..i] + ([t[i]] + t[i + 1..]);
    assert multiset(t) == multiset(t[..i]) + (multiset{t[i]} + multiset(t[i + 1..]));
  }

  /** The first occurrence of a byte, and how many there are behind it. */
  lemma FirstOf(t: seq<byte>, b: byte) returns (i: nat)
    requires multiset(t)[b] > 0
    ensures i < |t| && t[i] == b && multiset(t[i + 1..])[b] == multiset(t)[b] - 1
  {
    i := Find(t, x => x == b);
    assert b in t;
    CountSplits(t, i, b);
    assert b !in t[..i];
  }

  lemma OneMore(t: seq<byte>, i: nat, b: byte)
    requires i < |t| && t[i] == b
    ensures multiset(t)[b] >= 1 + multiset(t[i + 1..])[b]
  {
    CountSplits(t, i, b);
  }

  lemma OneMoreFrom(t: seq<byte>, i: nat, j: nat, b: byte)
    requires i <= j < |t| && t[j] == b
    ensures multiset(t[i..])[b] >= 1 + multiset(t[j + 1..])[b]
  {
    OneMore(t[i..], j - i, b);
    TailsTail(t, i, j + 1);
  }

  lemma {:induction false} TailsTail(t: seq<byte>, i: nat, j: nat)
    requires i <= j <= |t|
    ensures t[i..][j - i..] == t[j..]
  {
  }

  lemma TwoColons(t: seq<byte>)
    ensures multiset(t)[COLON] >= 2 <==> exists i, j :: 0 <= i < j < |t| && Is(t[i], ':') && Is(t[j], ':')
  {
    if multiset(t)[COLON] >= 2 {
      var i := FirstOf(t, COLON);
      var n := FirstOf(t[i + 1..], COLON);
      assert Is(t[i], ':') && Is(t[i + 1 + n], ':');
    }
    if i, j :| 0 <= i < j < |t| && Is(t[i], ':') && Is(t[j], ':') {
      OneMore(t, i, COLON);
      OneMore(t[i + 1..], j - i - 1, COLON);
    }
  }

  lemma FindFour(t: seq<byte>)
    requires multiset(t)[HYPHEN] >= 4
    ensures exists i: nat, j: nat, k: nat, l: nat :: FourAt(t, '-', i, j, k, l)
  {
    var i := FirstOf(t, HYPHEN);
    var t1 := t[i + 1..];
    var j := FirstOf(t1, HYPHEN);
    var t2 := t1[j + 1..];
    var k := FirstOf(t2, HYPHEN);
    var t3 := t2[k + 1..];
    var l := FirstOf(t3, HYPHEN);
    var j1 := i + 1 + j;
    TailsTail(t, i + 1, j1 + 1);
    var k1 := j1 + 1 + k;
    TailsTail(t, j1 + 1, k1 + 1);
    var l1 := k1 + 1 + l;
    assert t[j1] == t1[j] && t[k1] == t2[k] && t[l1] == t3[l];
    assert FourAt(t, '-', i, j1, k1, l1);
  }

  lemma CountFour(t: seq<byte>, i: nat, j: nat, k: nat, l: nat)
    requires FourAt(t, '-', i, j, k, l)
    ensures multiset(t)[HYPHEN] >= 4
  {
    assert t[0..] == t;
    OneMoreFrom(t, 0, i, HYPHEN);
    OneMoreFrom(t, i + 1, j, HYPHEN);
    OneMoreFrom(t, j + 1, k, HYPHEN);
    OneMoreFrom(t, k + 1, l, HYPHEN);
  }

  lemma FourHyphens(t: seq<byte>)
    ensures multiset(t)[HYPHEN] >= 4 <==> exists i: nat, j: nat, k: nat, l: nat :: FourAt(t, '-', i, j, k, l)
  {
    hide FourAt;
    if multiset(t)[HYPHEN] >= 4 {
      FindFour(t);
    }
    if i: nat, j: nat, k: nat, l: nat :| FourAt(t, '-', i, j, k, l) {
      CountFour(t, i, j, k, l);
    }
  }

  lemma MacExact(core: seq<byte>)
    ensures MacAddress(core) <==> MacOf(core, ':') || MacOf(core, '-')
  {
    MacWithExact(core, COLON, ':');
    MacWithExact(core, HYPHEN, '-');
  }

  lemma MacWithExact(core: seq<byte>, separator: byte, c: char)
    requires separator as int == c as int
    ensures MacWith(core, separator) <==> MacOf(core, c)
  {
    forall b: byte
      ensures Hexadecimal(b) <==> IsHex(b)
    {
      CharactersAgree(b);
    }
    hide Hexadecimal, IsHex;
    if MacWith(core, separator) {
      forall pair | 0 <= pair < 6
        ensures Hexadecimal(core[3 * pair]) && Hexadecimal(core[3 * pair + 1])
        ensures pair < 5 ==> Is(core[3 * pair + 2], c)
      {
        assert 3 * pair % 3 == 0 && (3 * pair + 1) % 3 == 1 && (3 * pair + 2) % 3 == 2;
      }
    }
    if MacOf(core, c) {
      forall i | 0 <= i < 17
        ensures if i % 3 == 2 then core[i] == separator else IsHex(core[i])
      {
        var pair := i / 3;
        assert i == 3 * pair + i % 3;
        assert Hexadecimal(core[3 * pair]) && Hexadecimal(core[3 * pair + 1]);
      }
    }
  }

  lemma MembersAgree(core: seq<byte>)
    ensures (forall b :: b in core ==> InAddress(b)) <==> forall i :: 0 <= i < |core| ==> Addresses(core[i])
    ensures (forall b :: b in core ==> IsEncoded(b)) <==> forall i :: 0 <= i < |core| ==> Encodes(core[i])
  {
    forall i | 0 <= i < |core|
      ensures (Addresses(core[i]) <==> InAddress(core[i])) && (Encodes(core[i]) <==> IsEncoded(core[i]))
    {
      CharactersAgree(core[i]);
    }
    hide Addresses, InAddress, Encodes, IsEncoded;
    assert forall i :: 0 <= i < |core| ==> core[i] in core;
  }

  lemma EncodedExact(core: seq<byte>)
    ensures LooksSecret(core) <==> Encoded(core)
  {
    hide Encodes, IsEncoded, InAddress, Addresses, FourAt;
    MembersAgree(core);
    FourHyphens(core);
  }

  lemma Ipv6Exact(core: seq<byte>)
    ensures (multiset(core)[COLON] >= 2 && forall b :: b in core ==> InAddress(b)) <==> Ipv6(core)
  {
    hide Encodes, IsEncoded, InAddress, Addresses;
    MembersAgree(core);
    TwoColons(core);
  }

  lemma TokenExact(core: seq<byte>)
    ensures RedactsToken(core) <==> HidesToken(core)
  {
    hide Email, Mail, MacAddress, MacOf, Ipv4, Ipv4At, LooksSecret, Encoded, Ipv6;
    MailExact(core);
    Ipv4Exact(core);
    MacExact(core);
    Ipv6Exact(core);
    EncodedExact(core);
  }

  // ---- trimming ----

  predicate NoSpace(t: seq<byte>) {
    forall i :: 0 <= i < |t| ==> !IsSpace(t[i])
  }

  lemma {:induction false} TrimsFront(front: seq<byte>, t: seq<byte>)
    requires forall i :: 0 <= i < |front| ==> Wraps(front[i])
    ensures TrimFront(front + t) == TrimFront(t)
  {
    if front == [] {
      assert front + t == t;
    } else {
      CharactersAgree(front[0]);
      assert (front + t)[1..] == front[1..] + t;
      TrimsFront(front[1..], t);
    }
  }

  lemma {:induction false} TrimsBack(t: seq<byte>, back: seq<byte>)
    requires forall i :: 0 <= i < |back| ==> Wraps(back[i]) || Is(back[i], '.')
    ensures TrimBack(t + back) == TrimBack(t)
    decreases |back|
  {
    if back == [] {
      assert t + back == t;
    } else {
      var n := |back| - 1;
      CharactersAgree(back[n]);
      assert (t + back)[..|t + back| - 1] == t + back[..n];
      TrimsBack(t, back[..n]);
    }
  }

  /** Trimming takes off what is around a bare token, and nothing of the token. */
  lemma TrimsTo(front: seq<byte>, core: seq<byte>, back: seq<byte>)
    requires Around(front, back) && Bare(core)
    ensures Trim(front + (core + back)) == core && Trim(core) == core
  {
    TrimsFront(front, core + back);
    TrimsBack(core, back);
    CharactersAgree(core[0]);
    CharactersAgree(core[|core| - 1]);
    assert (core + back)[0] == core[0];
    hide Wraps, IsPunctuation;
    assert TrimFront(core + back) == core + back && TrimFront(core) == core && TrimBack(core) == core;
  }

  lemma {:induction false} TrimFrontKeeps(before: seq<byte>, kept: seq<byte>) returns (i: nat)
    requires kept != [] && !IsPunctuation(kept[0])
    ensures i <= |before| && TrimFront(before + kept) == before[i..] + kept
    ensures (forall j :: 0 <= j < |before| ==> IsPunctuation(before[j])) ==> i == |before|
  {
    hide IsPunctuation;
    if before == [] {
      i := 0;
      assert before + kept == kept;
    } else if IsPunctuation(before[0]) {
      assert (before + kept)[1..] == before[1..] + kept;
      var n := TrimFrontKeeps(before[1..], kept);
      i := n + 1;
      assert before[1..][n..] == before[i..];
    } else {
      i := 0;
    }
  }

  lemma {:induction false} TrimBackKeeps(kept: seq<byte>, after: seq<byte>) returns (j: nat)
    requires kept != [] && !IsPunctuation(kept[|kept| - 1]) && kept[|kept| - 1] != DOT
    ensures j <= |after| && TrimBack(kept + after) == kept + after[..j]
    decreases |after|
  {
    hide IsPunctuation;
    var t := kept + after;
    if after == [] {
      j := 0;
      assert t == kept;
    } else if IsPunctuation(t[|t| - 1]) || t[|t| - 1] == DOT {
      var n := |after| - 1;
      assert t[..|t| - 1] == kept + after[..n];
      j := TrimBackKeeps(kept, after[..n]);
      assert after[..n][..j] == after[..j];
    } else {
      j := |after|;
      assert after[..j] == after;
    }
  }

  /** What begins and ends with bytes that are not trimmed stays whole, whatever surrounds it. */
  lemma TrimKeeps(before: seq<byte>, kept: seq<byte>, after: seq<byte>) returns (i: nat, j: nat)
    requires kept != [] && !Wraps(kept[0]) && !Wraps(kept[|kept| - 1]) && !Is(kept[|kept| - 1], '.')
    ensures i <= |before| && j <= |after| && Trim(before + (kept + after)) == before[i..] + (kept + after[..j])
    ensures (forall k :: 0 <= k < |before| ==> Wraps(before[k])) ==> i == |before|
    ensures Trim(Trim(before + (kept + after))) == Trim(before + (kept + after))
  {
    CharactersAgree(kept[0]);
    CharactersAgree(kept[|kept| - 1]);
    forall k | 0 <= k < |before|
      ensures Wraps(before[k]) <==> IsPunctuation(before[k])
    {
      CharactersAgree(before[k]);
    }
    hide Wraps, IsPunctuation;
    i := TrimFrontKeeps(before, kept + after);
    var front := before[i..];
    j := TrimBackKeeps(front + kept, after);
    assert front + (kept + after) == (front + kept) + after;
    assert front + (kept + after[..j]) == (front + kept) + after[..j];
    TrimIdle(before + (kept + after));
  }

  lemma {:induction false} FrontIdle(t: seq<byte>)
    ensures TrimFront(t) != [] ==> !IsPunctuation(TrimFront(t)[0])
  {
    hide IsPunctuation;
    if t != [] && IsPunctuation(t[0]) {
      FrontIdle(t[1..]);
    }
  }

  lemma {:induction false} BackIdle(t: seq<byte>)
    ensures var b := TrimBack(t);
            b <= t && (b != [] ==> !IsPunctuation(b[|b| - 1]) && b[|b| - 1] != DOT)
    decreases |t|
  {
    hide IsPunctuation;
    if t != [] && (IsPunctuation(t[|t| - 1]) || t[|t| - 1] == DOT) {
      BackIdle(t[..|t| - 1]);
    }
  }

  lemma TrimIdle(t: seq<byte>)
    ensures Trim(Trim(t)) == Trim(t)
  {
    hide IsPunctuation;
    FrontIdle(t);
    BackIdle(TrimFront(t));
  }

  // ---- what the scan makes of a token after prose ----

  /** A text that fills the output: the ellipsis takes the place of the last three bytes. */
  function Full(t: seq<byte>, maximum: nat): seq<byte>
    requires |t| >= maximum
  {
    if maximum >= 3 then t[..maximum - 3] + ELLIPSIS else t[..maximum]
  }

  /** The prose and the redaction mark, as far as they fit, and nothing else. */
  function Redacted(words: seq<seq<byte>>, maximum: nat): seq<byte> {
    var prose := Spaced(words);
    if |prose| < maximum then Limited(prose + REDACTED, maximum) else Full(prose, maximum)
  }

  lemma FullStops(s: Scan, t: seq<byte>, maximum: nat)
    requires maximum > 0 && s.rest != [] && |s.output| == maximum && s.output <= t
    ensures Finish(Scanned(s, maximum), maximum) == Full(t, maximum)
  {
    hide ELLIPSIS;
    assert s.output == t[..maximum];
    if maximum >= 3 {
      assert s.output[..maximum - 3] == t[..maximum - 3];
    }
  }

  /** Prose that fills the output leaves no room for what follows. */
  lemma {:induction false} ProseFills(words: seq<seq<byte>>, tail: seq<byte>, output: seq<byte>, maximum: nat)
    requires PlainWords(words) && tail != [] && !IsSpace(tail[0]) && !ReadAsClient(words, tail)
    requires |output| < maximum <= |output| + |Spaced(words)|
    ensures Finish(Scanned(Scan(Spaced(words) + tail, output, false), maximum), maximum) ==
            Full(output + Spaced(words), maximum)
    decreases |words|
  {
    hide Turn, PlainWord, IsLetter, IsDigit, IsSpace, SpelledClient, Finish, Full, Limited;
    var w, others := words[0], words[1..];
    var more := Spaced(others) + tail;
    var spaced := [SPACE] + more;
    assert PlainWord(w) && PlainWords(others);
    SpacedStarts(others, tail);
    WordEnds(w);
    assert Spaced(words) + tail == w + spaced;
    assert output + Spaced(words) == (output + w) + ([SPACE] + Spaced(others));
    WordTurn(w, spaced, output, maximum);
    var s := Scan(spaced, Limited(output + w, maximum), |output| + |w| > maximum);
    if |output| + |w| >= maximum {
      LimitedFills(output + w, maximum);
      FullStops(s, output + Spaced(words), maximum);
    } else {
      var written := output + w;
      LimitedFits(written, maximum);
      SpaceTurn(more, written, maximum);
      var t := Scan(more, written + [SPACE], false);
      assert Scanned(s, maximum) == Scanned(t, maximum);
      assert written + [SPACE] + Spaced(others) == output + Spaced(words);
      if |written| + 1 == maximum {
        FullStops(t, output + Spaced(words), maximum);
      } else {
        ProseFills(others, tail, written + [SPACE], maximum);
      }
    }
  }

  lemma LimitedFills(t: seq<byte>, maximum: nat)
    requires |t| >= maximum
    ensures |Limited(t, maximum)| == maximum && Limited(t, maximum) <= t
  {
  }

  lemma LimitedFits(t: seq<byte>, maximum: nat)
    requires |t| <= maximum
    ensures Limited(t, maximum) == t
  {
  }

  /** After prose the scan goes on with whatever follows, unless the output is full. */
  lemma AfterProse(words: seq<seq<byte>>, tail: seq<byte>, maximum: nat)
    requires PlainWords(words) && tail != [] && !IsSpace(tail[0]) && !ReadAsClient(words, tail)
    ensures var prose := Spaced(words);
            Sanitize(prose + tail, maximum) ==
              if |prose| < maximum then Finish(Scanned(Turn(Scan(tail, prose, false), maximum), maximum), maximum)
              else Full(prose, maximum)
  {
    hide Turn, Spaced, Finish, ReadAsClient, IsSpace, ELLIPSIS;
    var prose := Spaced(words);
    assert [] + prose == prose;
    if |prose| < maximum {
      ProseScans(words, tail, [], maximum);
    } else if maximum > 0 {
      ProseFills(words, tail, [], maximum);
    }
  }

  /** Not a client identifier: a token other than the word "client". */
  lemma TokenIsNoClient(t: seq<byte>, rest: seq<byte>)
    requires NoSpace(t) && !SpelledClient(t) && (rest == [] || IsSpace(rest[0]))
    ensures ClientLength(t + rest) == 0
  {
    var u := t + rest;
    ClientSpelled();
    if |u| >= 7 {
      var l := LowerText(u[..7]);
      assert forall i :: 0 <= i < 7 ==> l[i] == Lower(u[i]);
      if |t| < 6 {
        assert u[|t|] == rest[0] && IsLetter(CLIENT[|t|]);
        SpaceIsNoLetter(rest[0]);
      } else if |t| > 6 {
        assert u[6] == t[6] && l[6] != SPACE;
      }
    }
  }

  lemma SpaceIsNoLetter(b: byte)
    requires IsSpace(b)
    ensures !IsLetter(Lower(b))
  {
  }

  lemma TokenSplits(t: seq<byte>, rest: seq<byte>)
    requires NoSpace(t) && (rest == [] || IsSpace(rest[0]))
    ensures Find(t + rest, IsSpace) == |t| && (t + rest)[..|t|] == t && (t + rest)[|t|..] == rest
  {
    FindIn(t + rest, IsSpace, |t|);
  }

  /** The turn of the loop that meets a token. */
  lemma TokenTurn(t: seq<byte>, rest: seq<byte>, output: seq<byte>, maximum: nat)
    requires t != [] && NoSpace(t) && !SpelledClient(t) && (rest == [] || IsSpace(rest[0]))
    ensures Turn(Scan(t + rest, output, false), maximum) ==
            if RedactsTail(Trim(t)) then Scan([], Limited(output + REDACTED, maximum), false)
            else if RedactsToken(Trim(t)) then Scan(rest, Limited(output + REDACTED, maximum), false)
            else Scan(rest, Limited(output + Visible(t), maximum), |output| + |t| > maximum)
  {
    hide Trim, RedactsTail, RedactsToken, Limited, Visible, ClientLength, SpelledClient, IsSpace, Find, TakeToken, Turn;
    TokenSplits(t, rest);
    TokenIsNoClient(t, rest);
    assert (t + rest)[0] == t[0] && !IsSpace(t[0]);
    hide NoSpace;
    TurnIsToken(t + rest, output, maximum);
    TokenTaken(t, t + rest, rest, output, maximum);
  }

  lemma TurnIsToken(text: seq<byte>, output: seq<byte>, maximum: nat)
    requires text != [] && ClientLength(text) == 0 && !IsSpace(text[0])
    ensures Turn(Scan(text, output, false), maximum) == TakeToken(Scan(text, output, false), maximum)
  {
    hide ClientLength, IsSpace, TakeToken;
  }

  lemma TokenTaken(t: seq<byte>, text: seq<byte>, rest: seq<byte>, output: seq<byte>, maximum: nat)
    requires Find(text, IsSpace) == |t| && text[..|t|] == t && text[|t|..] == rest
    ensures TakeToken(Scan(text, output, false), maximum) ==
            if RedactsTail(Trim(t)) then Scan([], Limited(output + REDACTED, maximum), false)
            else if RedactsToken(Trim(t)) then Scan(rest, Limited(output + REDACTED, maximum), false)
            else Scan(rest, Limited(output + Visible(t), maximum), |output| + |t| > maximum)
  {
    hide Find, Trim, RedactsTail, RedactsToken, Limited, Visible, REDACTED;
  }

  /** The word "client" is prose of its own, never a secret. */
  lemma ClientIsPlain(t: seq<byte>)
    requires SpelledClient(t)
    ensures !RedactsTail(Trim(t)) && !RedactsToken(Trim(t))
  {
    hide RedactsTail, RedactsToken, Trim, NamesSecret;
    assert Letters(t) by {
      forall i | 0 <= i < 6
        ensures IsLetter(t[i])
      {
        assert SameLetter(t[i], "client"[i]);
      }
    }
    assert !NamesSecret(t) by { ClientIsNoName(t); }
    PlainWordKept(t);
  }

  lemma ClientIsNoName(t: seq<byte>)
    requires SpelledClient(t)
    ensures !NamesSecret(t)
  {
    hide SpelledClient, NAMES;
    if NamesSecret(t) {
      var k :| 0 <= k < |NAMES| && Spells(t, NAMES[k]);
      ClientSpellsItself(t, NAMES[k]);
      NotAmongNames(k);
    }
  }

  lemma NotAmongNames(k: nat)
    requires k < |NAMES|
    ensures |NAMES[k]| != 6 || NAMES[k][0] != 'c'
  {
  }

  lemma ClientSpellsItself(t: seq<byte>, name: string)
    requires SpelledClient(t) && Spells(t, name)
    ensures |name| == 6 && name[0] == 'c'
  {
    assert forall i :: 0 <= i < 6 ==> SameLetter(t[i], "client"[i]);
    SpelledLength(t, name);
    assert SameLetter(t[0], 'c');
  }

  lemma {:induction false} SpelledLength(t: seq<byte>, name: string)
    requires Spells(t, name) && forall i :: 0 <= i < |t| ==> IsLetter(t[i])
    ensures |name| == |t|
  {
    if t != [] {
      assert IsLetter(t[0]);
      SpelledLength(t[1..], name[1..]);
    }
  }

  // ---- a hidden token takes the rest of the text with it ----

  lemma HiddenTail(words: seq<seq<byte>>, t: seq<byte>, rest: seq<byte>, maximum: nat)
    requires PlainWords(words) && t != [] && NoSpace(t) && (rest == [] || IsSpace(rest[0]))
    requires !ReadAsClient(words, t + rest) && RedactsTail(Trim(t))
    ensures Sanitize(Spaced(words) + (t + rest), maximum) == Redacted(words, maximum)
  {
    hide Spaced, Turn, Trim, RedactsTail, RedactsToken, Limited, Full, IsSpace, ReadAsClient, SpelledClient, Sanitize;
    if SpelledClient(t) {
      ClientIsPlain(t);
    }
    assert (t + rest)[0] == t[0];
    AfterProse(words, t + rest, maximum);
    TokenTurn(t, rest, Spaced(words), maximum);
  }

  /** A token, from its start to the next space, around something that is not trimmed. */
  lemma TokenAround(before: seq<byte>, kept: seq<byte>, rest: seq<byte>) returns (n: nat)
    requires kept != [] && NoSpace(before + kept)
    ensures n <= |rest| && NoSpace(before + (kept + rest[..n])) && (rest[n..] == [] || IsSpace(rest[n..][0]))
    ensures before + (kept + rest) == (before + (kept + rest[..n])) + rest[n..]
  {
    hide IsSpace;
    n := Find(rest, IsSpace);
    Regrouped(before, kept, rest[..n]);
    Regrouped(before + kept, rest[..n], rest[n..]);
    Regrouped(before, kept, rest);
    assert rest == rest[..n] + rest[n..];
    NoSpaceJoins(before + kept, rest[..n]);
  }

  lemma Regrouped(a: seq<byte>, b: seq<byte>, c: seq<byte>)
    ensures a + (b + c) == (a + b) + c
  {
  }

  lemma NoSpaceJoins(a: seq<byte>, b: seq<byte>)
    requires NoSpace(a) && NoSpace(b)
    ensures NoSpace(a + b)
  {
    hide IsSpace;
  }

  lemma {:induction false} SpelledBytes(t: seq<byte>, name: string)
    requires Spells(t, name)
    ensures forall i :: 0 <= i < |t| ==> IsLetter(t[i]) || t[i] == HYPHEN || t[i] == UNDERSCORE
    ensures t == [] ==> name == ""
  {
    if t != [] {
      SpelledBytes(t[1..], if t[0] == HYPHEN || t[0] == UNDERSCORE then name else name[1..]);
    }
  }

  /** A name has nothing to trim, holds no space and begins with no digit. */
  lemma NameIsBare(name: seq<byte>)
    requires NamesSecret(name)
    ensures name != [] && Bare(name) && NoSpace(name) && !IsDigit(name[0])
  {
    hide NAMES, Spells;
    var k :| 0 <= k < |NAMES| && Spells(name, NAMES[k]);
    SpelledBytes(name, NAMES[k]);
    NameNotEmpty(k);
  }

  lemma NameNotEmpty(k: nat)
    requires k < |NAMES|
    ensures NAMES[k] != ""
  {
  }

  /**
   * Assignments: whatever follows the name of a secret and a separator, to the end of the text, leaves no trace in the
   * output.
   */
  lemma AssignmentHides(words: seq<seq<byte>>, front: seq<byte>, name: seq<byte>, separator: byte, rest: seq<byte>,
                        maximum: nat)
    requires PlainWords(words) && Around(front, []) && NamesSecret(name) && Separates(separator)
    ensures Sanitize(Spaced(words) + (front + (name + [separator] + rest)), maximum) == Redacted(words, maximum)
  {
    hide Trim, RedactsTail, NamesSecret, Spaced, Sanitize, Redacted;
    var kept := name + [separator];
    NameIsBare(name);
    FrontIsNoSpace(front);
    assert NoSpace(front + kept);
    var n := TokenAround(front, kept, rest);
    var t := front + (kept + rest[..n]);
    var i, j := TrimKeeps(front, kept, rest[..n]);
    var core := Trim(t);
    assert core == name + ([separator] + rest[..n][..j]);
    Assigned(core, name, separator, rest[..n][..j]);
    TailExact(core);
    assert t[0] == (if front == [] then name else front)[0];
    HiddenTail(words, t, rest[n..], maximum);
  }

  lemma FrontIsNoSpace(front: seq<byte>)
    requires Around(front, [])
    ensures NoSpace(front) && forall i :: 0 <= i < |front| ==> !IsDigit(front[i])
  {
    forall i | 0 <= i < |front|
      ensures !IsSpace(front[i]) && !IsDigit(front[i])
    {
      assert Wraps(front[i]);
    }
  }

  /** Names alone: the name of a secret hides itself and all that follows it. */
  lemma NameHides(words: seq<seq<byte>>, front: seq<byte>, name: seq<byte>, back: seq<byte>, rest: seq<byte>,
                  maximum: nat)
    requires PlainWords(words) && Around(front, back) && NamesSecret(name) && (rest == [] || IsSpace(rest[0]))
    ensures Sanitize(Spaced(words) + (front + (name + back) + rest), maximum) == Redacted(words, maximum)
  {
    hide Trim, RedactsTail, NamesSecret, Spaced, Sanitize, Redacted, Bare;
    NameIsBare(name);
    FrontIsNoSpace(front);
    BackIsNoSpace(back);
    var t := front + (name + back);
    TrimsTo(front, name, back);
    TailExact(name);
    assert t[0] == (if front == [] then name else front)[0];
    HiddenTail(words, t, rest, maximum);
  }

  lemma BackIsNoSpace(back: seq<byte>)
    requires Around([], back)
    ensures NoSpace(back)
  {
    forall i | 0 <= i < |back|
      ensures !IsSpace(back[i])
    {
      assert Wraps(back[i]) || Is(back[i], '.');
    }
  }

  /** Paths with a drive letter, anywhere in a token: the token and all that follows it. */
  lemma DrivePathHides(words: seq<seq<byte>>, before: seq<byte>, drive: byte, colon: byte, slash: byte,
                       rest: seq<byte>, maximum: nat)
    requires PlainWords(words) && NoSpace(before) && !ReadAsClient(words, before)
    requires (Small(drive) || Capital(drive)) && Is(colon, ':') && Slashes(slash)
    ensures Sanitize(Spaced(words) + (before + ([drive, colon, slash] + rest)), maximum) == Redacted(words, maximum)
  {
    hide Trim, RedactsTail, Spaced, Sanitize, Redacted, SpelledClient;
    var kept := [drive, colon, slash];
    assert NoSpace(before + kept);
    var n := TokenAround(before, kept, rest);
    var t := before + (kept + rest[..n]);
    var i, j := TrimKeeps(before, kept, rest[..n]);
    DriveIsPath(Trim(t), before[i..], drive, colon, slash, rest[..n][..j]);
    TailExact(Trim(t));
    assert t[0] == if before == [] then drive else before[0];
    HiddenTail(words, t, rest[n..], maximum);
  }

  /** Paths that start with two slashes. */
  lemma SharedPathHides(words: seq<seq<byte>>, front: seq<byte>, slash: byte, rest: seq<byte>, maximum: nat)
    requires PlainWords(words) && Around(front, []) && Slashes(slash)
    ensures Sanitize(Spaced(words) + (front + ([slash, slash] + rest)), maximum) == Redacted(words, maximum)
  {
    hide Trim, RedactsTail, Spaced, Sanitize, Redacted, SpelledClient;
    var kept := [slash, slash];
    FrontIsNoSpace(front);
    assert NoSpace(front + kept);
    var n := TokenAround(front, kept, rest);
    var t := front + (kept + rest[..n]);
    var i, j := TrimKeeps(front, kept, rest[..n]);
    SharedIsPath(Trim(t), slash, rest[..n][..j]);
    TailExact(Trim(t));
    assert t[0] == if front == [] then slash else front[0];
    HiddenTail(words, t, rest[n..], maximum);
  }

  // ---- a hidden token on its own ----

  /** A token of the text: what it is made of, and that it ends where a space or the text does. */
  predicate IsToken(t: seq<byte>, front: seq<byte>, core: seq<byte>, back: seq<byte>, rest: seq<byte>) {
    t == front + (core + back) && Around(front, back) && Bare(core) && NoSpace(t) && (rest == [] || IsSpace(rest[0]))
  }

  /** What becomes of a token behind prose, decided by its shape alone. */
  lemma TokenFate(words: seq<seq<byte>>, t: seq<byte>, front: seq<byte>, core: seq<byte>, back: seq<byte>,
                  rest: seq<byte>, maximum: nat)
    requires PlainWords(words) && IsToken(t, front, core, back, rest) && !ReadAsClient(words, t + rest)
    requires !SpelledClient(t) && |Spaced(words)| < maximum
    ensures var prose := Spaced(words);
            Sanitize(prose + (t + rest), maximum) ==
              if HidesTail(core) then Limited(prose + REDACTED, maximum)
              else if HidesToken(core) then
                Finish(Scanned(Scan(rest, Limited(prose + REDACTED, maximum), false), maximum), maximum)
              else
                Finish(Scanned(Scan(rest, Limited(prose + Visible(t), maximum), |prose| + |t| > maximum), maximum),
                       maximum)
  {
    hide Spaced, Turn, Trim, RedactsTail, RedactsToken, HidesTail, HidesToken, Limited, IsSpace, ReadAsClient,
         SpelledClient, Sanitize, Visible, Bare, Around, NoSpace;
    TrimsTo(front, core, back);
    TailExact(core);
    TokenExact(core);
    TokenStarts(t, front, core, back, rest);
    AfterProse(words, t + rest, maximum);
    TokenTurn(t, rest, Spaced(words), maximum);
    EndsAt(Limited(Spaced(words) + REDACTED, maximum), maximum);
  }

  lemma TokenStarts(t: seq<byte>, front: seq<byte>, core: seq<byte>, back: seq<byte>, rest: seq<byte>)
    requires IsToken(t, front, core, back, rest)
    ensures t != [] && (t + rest)[0] == t[0] && !IsSpace(t[0])
  {
  }

  lemma EndsAt(output: seq<byte>, maximum: nat)
    ensures Finish(Scanned(Scan([], output, false), maximum), maximum) == output
  {
  }

  lemma FateOfFull(words: seq<seq<byte>>, t: seq<byte>, front: seq<byte>, core: seq<byte>, back: seq<byte>,
                   rest: seq<byte>, maximum: nat)
    requires PlainWords(words) && IsToken(t, front, core, back, rest) && !ReadAsClient(words, t + rest)
    requires |Spaced(words)| >= maximum
    ensures Sanitize(Spaced(words) + (t + rest), maximum) == Full(Spaced(words), maximum)
  {
    hide Spaced, Turn, IsSpace, ReadAsClient, Sanitize, Bare, Around, NoSpace, Full;
    TokenStarts(t, front, core, back, rest);
    AfterProse(words, t + rest, maximum);
  }

  lemma HiddenIsNoClient(t: seq<byte>, front: seq<byte>, core: seq<byte>, back: seq<byte>)
    requires IsToken(t, front, core, back, []) && (HidesTail(core) || HidesToken(core))
    ensures !SpelledClient(t)
  {
    hide HidesTail, HidesToken, RedactsTail, RedactsToken, Trim, SpelledClient;
    TrimsTo(front, core, back);
    TailExact(core);
    TokenExact(core);
    if SpelledClient(t) {
      ClientIsPlain(t);
    }
  }

  lemma {:induction false} OutputGrows(s: Scan, maximum: nat)
    ensures |s.output| <= maximum ==> s.output <= Scanned(s, maximum).output
    decreases |s.rest|
  {
    hide Turn;
    if s.rest != [] && |s.output| < maximum {
      TurnGrows(s, maximum);
      OutputGrows(Turn(s, maximum), maximum);
    }
  }

  lemma TurnGrows(s: Scan, maximum: nat)
    requires s.rest != [] && |s.output| < maximum
    ensures s.output <= Turn(s, maximum).output
  {
    hide Trim, RedactsTail, RedactsToken, ClientLength, Find, Visible, REDACTED, CLIENT_MARK;
  }

  lemma BeginsWith(rest: seq<byte>, output: seq<byte>, maximum: nat)
    requires |output| + 3 <= maximum
    ensures output <= Finish(Scanned(Scan(rest, output, false), maximum), maximum)
  {
    hide Turn, ELLIPSIS;
    OutputGrows(Scan(rest, output, false), maximum);
  }

  /**
   * Mail addresses, numeric and hardware addresses and encoded secrets: the redaction mark stands for the whole token,
   * and ends the output when nothing follows.
   */
  lemma TokenHides(words: seq<seq<byte>>, t: seq<byte>, front: seq<byte>, core: seq<byte>, back: seq<byte>,
                   rest: seq<byte>, maximum: nat)
    requires PlainWords(words) && IsToken(t, front, core, back, rest) && !ReadAsClient(words, t + rest)
    requires HidesToken(core)
    ensures rest == [] ==> Sanitize(Spaced(words) + (t + rest), maximum) == Redacted(words, maximum)
    ensures |Spaced(words)| + 13 <= maximum ==>
              Spaced(words) + REDACTED <= Sanitize(Spaced(words) + (t + rest), maximum)
  {
    hide Spaced, HidesTail, HidesToken, ReadAsClient, SpelledClient, Sanitize, Bare, Around, NoSpace, Full, Finish,
         Scanned, REDACTED;
    HiddenIsNoClient(t, front, core, back);
    var prose := Spaced(words);
    MarksSpelled();
    if |prose| >= maximum {
      FateOfFull(words, t, front, core, back, rest, maximum);
    } else {
      TokenFate(words, t, front, core, back, rest, maximum);
      EndsAt(Limited(prose + REDACTED, maximum), maximum);
      if |prose| + 13 <= maximum {
        BeginsWith(rest, prose + REDACTED, maximum);
      }
    }
  }

  /** Of a hidden token the output tells nothing, but for whether what follows it is hidden as well. */
  lemma TokensAlike(words: seq<seq<byte>>, t: seq<byte>, front: seq<byte>, core: seq<byte>, back: seq<byte>,
                    u: seq<byte>, uFront: seq<byte>, other: seq<byte>, uBack: seq<byte>, rest: seq<byte>, maximum: nat)
    requires PlainWords(words) && IsToken(t, front, core, back, rest) && IsToken(u, uFront, other, uBack, rest)
    requires !ReadAsClient(words, t + rest) && !ReadAsClient(words, u + rest)
    requires (HidesTail(core) || HidesToken(core)) && (HidesTail(other) || HidesToken(other))
    requires HidesTail(core) <==> HidesTail(other)
    ensures Sanitize(Spaced(words) + (t + rest), maximum) == Sanitize(Spaced(words) + (u + rest), maximum)
  {
    hide Spaced, HidesTail, HidesToken, ReadAsClient, SpelledClient, Sanitize, Bare, Around, NoSpace, Full, Finish,
         Scanned, REDACTED, Limited;
    HiddenIsNoClient(t, front, core, back);
    HiddenIsNoClient(u, uFront, other, uBack);
    if |Spaced(words)| >= maximum {
      FateOfFull(words, t, front, core, back, rest, maximum);
      FateOfFull(words, u, uFront, other, uBack, rest, maximum);
    } else {
      TokenFate(words, t, front, core, back, rest, maximum);
      TokenFate(words, u, uFront, other, uBack, rest, maximum);
    }
  }

  /** A token of none of the shapes is copied, with a question mark for every control character. */
  lemma OtherTokenKept(words: seq<seq<byte>>, t: seq<byte>, front: seq<byte>, core: seq<byte>, back: seq<byte>,
                       maximum: nat)
    requires PlainWords(words) && IsToken(t, front, core, back, []) && !ReadAsClient(words, t)
    requires !SpelledClient(t) && !HidesTail(core) && !HidesToken(core) && |Spaced(words)| + |t| <= maximum
    ensures var output := Sanitize(Spaced(words) + t, maximum);
            |output| == |Spaced(words)| + |t| && Spaced(words) <= output &&
            forall i :: 0 <= i < |t| ==>
              output[|Spaced(words)| + i] == if t[i] < 0x20 || t[i] == 0x7f then '?' as int else t[i]
  {
    hide Spaced, HidesTail, HidesToken, ReadAsClient, SpelledClient, Sanitize, Bare, Around, NoSpace, Finish, Scanned;
    TokenStarts(t, front, core, back, []);
    assert t + [] == t;
    TokenFate(words, t, front, core, back, [], maximum);
    EndsAt(Spaced(words) + Visible(t), maximum);
  }

  // ---- client identifiers ----

  predicate AllDecimal(t: seq<byte>) {
    t != [] && forall i :: 0 <= i < |t| ==> Decimal10(t[i])
  }

  function ClientText(w: seq<byte>, digits: seq<byte>): seq<byte> {
    w + ([SPACE] + digits)
  }

  lemma ClientMeasured(w: seq<byte>, digits: seq<byte>, rest: seq<byte>)
    requires SpelledClient(w) && AllDecimal(digits) && (rest == [] || !IsDigit(rest[0]))
    ensures var t := ClientText(w, digits) + rest;
            ClientLength(t) == |ClientText(w, digits)| > 0 && t[|ClientText(w, digits)|..] == rest &&
            t != [] && !IsSpace(t[0]) && !IsDigit(t[0])
  {
    var t := ClientText(w, digits) + rest;
    forall i | 0 <= i < |digits|
      ensures IsDigit(digits[i])
    {
      assert Decimal10(digits[i]);
    }
    RunOf(digits, rest);
    assert t[7..] == digits + rest;
    TakenOff(ClientText(w, digits), rest);
    ClientSpelled();
    var l := LowerText(t[..7]);
    assert SameLetter(w[0], "client"[0]) && t[0] == w[0];
    forall i | 0 <= i < 7
      ensures l[i] == CLIENT[i]
    {
      assert l[i] == Lower(t[i]);
      if i < 6 {
        assert t[i] == w[i] && SameLetter(w[i], "client"[i]);
      }
    }
    assert l == CLIENT;
  }

  lemma TakenOff(a: seq<byte>, b: seq<byte>)
    ensures (a + b)[|a|..] == b
  {
  }

  /** The number of a client is replaced, whatever it is. */
  lemma ClientFate(words: seq<seq<byte>>, w: seq<byte>, digits: seq<byte>, rest: seq<byte>, maximum: nat)
    requires PlainWords(words) && SpelledClient(w) && AllDecimal(digits) && (rest == [] || !IsDigit(rest[0]))
    ensures var prose := Spaced(words);
            Sanitize(prose + (ClientText(w, digits) + rest), maximum) ==
              if |prose| < maximum then
                Finish(Scanned(Scan(rest, Limited(prose + CLIENT_MARK, maximum), false), maximum), maximum)
              else Full(prose, maximum)
  {
    hide Spaced, ClientLength, ClientText, Sanitize, Finish, Full, Limited, IsSpace, IsDigit, SpelledClient;
    ClientMeasured(w, digits, rest);
    AfterProse(words, ClientText(w, digits) + rest, maximum);
  }

  /** The output does not depend on the number of a client. */
  lemma ClientNumberHides(words: seq<seq<byte>>, w: seq<byte>, digits: seq<byte>, v: seq<byte>, others: seq<byte>,
                          rest: seq<byte>, maximum: nat)
    requires PlainWords(words) && (rest == [] || !IsDigit(rest[0]))
    requires SpelledClient(w) && AllDecimal(digits) && SpelledClient(v) && AllDecimal(others)
    ensures Sanitize(Spaced(words) + (ClientText(w, digits) + rest), maximum) ==
            Sanitize(Spaced(words) + (ClientText(v, others) + rest), maximum)
    ensures |Spaced(words)| < maximum && rest == [] ==>
              Sanitize(Spaced(words) + ClientText(w, digits), maximum) == Limited(Spaced(words) + CLIENT_MARK, maximum)
  {
    hide Spaced, ClientText, Sanitize, Finish, Full, Limited, SpelledClient, Scanned;
    ClientFate(words, w, digits, rest, maximum);
    ClientFate(words, v, others, rest, maximum);
    if rest == [] {
      assert ClientText(w, digits) + rest == ClientText(w, digits);
      EndsAt(Limited(Spaced(words) + CLIENT_MARK, maximum), maximum);
    }
  }

  // ---- an address that is read as the number of a client ----

  lemma OctetHoldsNo(t: seq<byte>, b: byte)
    requires Octet(t) && !IsDigit(b)
    ensures multiset(t)[b] == 0 && forall i :: 0 <= i < |t| ==> IsDigit(t[i]) && t[i] != b
  {
    assert b !in t;
  }

  lemma DotsOf(a: seq<byte>, b: seq<byte>, c: seq<byte>, d: seq<byte>)
    requires Octet(a) && Octet(b) && Octet(c) && Octet(d)
    ensures multiset(Dotted(a, b, c, d))[DOT] == 3
  {
    hide Octet;
    OctetHoldsNo(a, DOT);
    OctetHoldsNo(b, DOT);
    OctetHoldsNo(c, DOT);
    OctetHoldsNo(d, DOT);
  }

  /** What is left of an address without its first octet. */
  function Tail3(b: seq<byte>, c: seq<byte>, d: seq<byte>): seq<byte> {
    [DOT] + (b + ([DOT] + (c + ([DOT] + d))))
  }

  lemma Tail3Bytes(b: seq<byte>, c: seq<byte>, d: seq<byte>)
    requires Octet(b) && Octet(c) && Octet(d)
    ensures var t := Tail3(b, c, d);
            && 6 <= |t| <= 12 && t[0] == DOT && multiset(t)[DOT] == 3 && IsDigit(t[|t| - 1])
            && forall i :: 0 <= i < |t| ==> IsDigit(t[i]) || t[i] == DOT
  {
    assert |b| <= 3 && |c| <= 3 && |d| <= 3;
    hide Octet;
    OctetHoldsNo(b, DOT);
    OctetHoldsNo(c, DOT);
    OctetHoldsNo(d, DOT);
    var t2 := c + ([DOT] + d);
    assert forall i :: 0 <= i < |t2| ==> IsDigit(t2[i]) || t2[i] == DOT;
    var t1 := b + ([DOT] + t2);
    assert forall i :: 0 <= i < |t1| ==> IsDigit(t1[i]) || t1[i] == DOT;
  }

  lemma CountJoins(x: seq<byte>, y: seq<byte>, z: seq<byte>, b: byte)
    ensures multiset(x + (y + z))[b] >= multiset(x)[b] + multiset(y)[b]
  {
    assert multiset(x + (y + z)) == multiset(x) + (multiset(y) + multiset(z));
  }

  /** An address holds three dots, and another one when it begins with a dot. */
  lemma Ipv4Dots(t: seq<byte>, before: seq<byte>, a: seq<byte>, b: seq<byte>, c: seq<byte>, d: seq<byte>,
                 after: seq<byte>)
    requires Ipv4As(t, before, a, b, c, d, after)
    ensures t != [] && (t[0] == DOT ==> multiset(t)[DOT] >= 4)
  {
    assert a != [] && !IsDigit(DOT);
    hide Octet, IsDigit;
    DotsOf(a, b, c, d);
    CountJoins(before, Dotted(a, b, c, d), after, DOT);
    OctetHoldsNo(a, DOT);
    if before == [] {
      assert t[0] == a[0];
    } else {
      assert t[0] == before[0];
      OneMore(before, 0, before[0]);
    }
  }

  lemma NumbersAreNoIpv4(t: seq<byte>)
    requires t != [] && t[0] == DOT && multiset(t)[DOT] == 3
    ensures !Ipv4(t)
  {
    hide Octet, Ipv4As;
    if before, a, b, c, d, after :| Ipv4As(t, before, a, b, c, d, after) {
      Ipv4Dots(t, before, a, b, c, d, after);
    }
  }

  lemma Holds(x: seq<byte>, b: byte, y: seq<byte>)
    ensures (x + ([b] + y))[|x|] == b
  {
  }

  lemma NumbersAreNoTail(t: seq<byte>)
    requires t != [] && t[0] == DOT && forall i :: 0 <= i < |t| ==> IsDigit(t[i]) || t[i] == DOT
    ensures !HidesTail(t)
  {
    hide Spells, NAMES;
    if name, separator, value :| AssignedAs(t, name, separator, value) {
      Holds(name, separator, value);
    }
    if NamesSecret(t) {
      var k :| 0 <= k < |NAMES| && Spells(t, NAMES[k]);
      SpelledBytes(t, NAMES[k]);
    }
    if slash, path :| SharedAs(t, slash, path) {
      SharedSlash(t, slash, path);
    }
    if before, drive, colon, slash, path :| DriveAs(t, before, drive, colon, slash, path) {
      DriveColon(t, before, drive, colon, slash, path);
    }
  }

  lemma SharedSlash(t: seq<byte>, slash: byte, path: seq<byte>)
    requires SharedAs(t, slash, path)
    ensures t != [] && (t[0] == BACKSLASH || t[0] == SLASH)
  {
  }

  lemma DriveColon(t: seq<byte>, before: seq<byte>, drive: byte, colon: byte, slash: byte, path: seq<byte>)
    requires DriveAs(t, before, drive, colon, slash, path)
    ensures |before| + 1 < |t| && t[|before| + 1] == COLON
  {
  }

  lemma NumbersAreNoToken(t: seq<byte>)
    requires 0 < |t| <= 12 && t[0] == DOT && multiset(t)[DOT] == 3
    requires forall i :: 0 <= i < |t| ==> IsDigit(t[i]) || t[i] == DOT
    ensures !HidesToken(t)
  {
    hide Ipv4;
    NumbersAreNoIpv4(t);
    if local, at, domain :| MailAs(t, local, at, domain) {
      Holds(local, at, domain);
    }
  }

  /**
   * An address behind the word "client" loses its first octet only: what is taken for the number of a client ends at
   * the first dot, and the rest is no address any more.
   */
  lemma ClientAddressLeaks(words: seq<seq<byte>>, w: seq<byte>, a: seq<byte>, b: seq<byte>, c: seq<byte>, d: seq<byte>,
                           maximum: nat)
    requires PlainWords(words) && SpelledClient(w) && Octet(a) && Octet(b) && Octet(c) && Octet(d)
    requires |Spaced(words)| + 23 <= maximum
    ensures Sanitize(Spaced(words) + (w + ([SPACE] + Dotted(a, b, c, d))), maximum) ==
            Spaced(words) + CLIENT_MARK + Tail3(b, c, d)
  {
    hide Spaced, Sanitize, Finish, Full, Scanned, SpelledClient, Octet, HidesTail, HidesToken, Turn, Dotted,
         RedactsTail, RedactsToken, Trim, CLIENT_MARK;
    var t := Tail3(b, c, d);
    OctetIsNumber(a);
    DottedFront(a, b, c, d);
    Tail3Bytes(b, c, d);
    assert w + ([SPACE] + (a + t)) == ClientText(w, a) + t;
    ClientFate(words, w, a, t, maximum);
    MarkLength();
    var output := Spaced(words) + CLIENT_MARK;
    hide Tail3;
    NumbersAreNoTail(t);
    NumbersAreNoToken(t);
    Tail3Turn(t, output, maximum);
  }

  lemma OctetIsNumber(a: seq<byte>)
    requires Octet(a)
    ensures AllDecimal(a)
  {
  }

  lemma DottedFront(a: seq<byte>, b: seq<byte>, c: seq<byte>, d: seq<byte>)
    ensures Dotted(a, b, c, d) == a + Tail3(b, c, d)
  {
  }

  lemma MarkLength()
    ensures |CLIENT_MARK| == 11 && CLIENT_MARK[8] == 'i' as int && |REDACTED| == 10 && REDACTED[1] == 'r' as int
  {
  }

  lemma Tail3Turn(t: seq<byte>, output: seq<byte>, maximum: nat)
    requires t != [] && t[0] == DOT && IsDigit(t[|t| - 1])
    requires forall i :: 0 <= i < |t| ==> IsDigit(t[i]) || t[i] == DOT
    requires !HidesTail(t) && !HidesToken(t) && |output| + |t| <= maximum
    ensures Finish(Scanned(Scan(t, output, false), maximum), maximum) == output + t
  {
    hide HidesTail, HidesToken, RedactsTail, RedactsToken, Trim, Turn, Finish, Scanned;
    assert Bare(t) && NoSpace(t) && !SpelledClient(t) && Around([], []);
    assert Visible(t) == t;
    assert [] + (t + []) == t && t + [] == t;
    TrimsTo([], t, []);
    TailExact(t);
    TokenExact(t);
    TokenTurn(t, [], output, maximum);
    OneTurn(t, output, maximum);
    EndsAt(output + t, maximum);
  }

  lemma OneTurn(t: seq<byte>, output: seq<byte>, maximum: nat)
    requires t != [] && |output| < maximum
    ensures Scanned(Scan(t, output, false), maximum) == Scanned(Turn(Scan(t, output, false), maximum), maximum)
  {
    hide Turn;
  }

  // ---- when an address behind prose is hidden ----

  lemma NumbersInFront(a: seq<byte>, t: seq<byte>)
    requires a != [] && (forall i :: 0 <= i < |a| ==> IsDigit(a[i])) && t != [] && IsDigit(t[|t| - 1])
    requires forall i :: 0 <= i < |t| ==> IsDigit(t[i]) || t[i] == DOT
    ensures Bare(a + t) && NoSpace(a + t) && IsDigit((a + t)[0])
  {
    forall i | 0 <= i < |a + t|
      ensures IsDigit((a + t)[i]) || (a + t)[i] == DOT
    {
    }
  }

  lemma DottedIsIpv4(a: seq<byte>, b: seq<byte>, c: seq<byte>, d: seq<byte>)
    requires Octet(a) && Octet(b) && Octet(c) && Octet(d)
    ensures Ipv4(Dotted(a, b, c, d))
  {
    hide Octet, Dotted;
    var t := Dotted(a, b, c, d);
    assert [] + (t + []) == t;
    assert Ipv4As(t, [], a, b, c, d, []);
  }

  lemma DottedIsToken(a: seq<byte>, b: seq<byte>, c: seq<byte>, d: seq<byte>)
    requires Octet(a) && Octet(b) && Octet(c) && Octet(d)
    ensures var t := Dotted(a, b, c, d);
            IsToken(t, [], t, [], []) && HidesToken(t) && IsDigit(t[0])
  {
    assert a != [];
    hide Octet, Ipv4, Bare, NoSpace, IsDigit;
    DottedIsIpv4(a, b, c, d);
    DottedFront(a, b, c, d);
    Tail3Bytes(b, c, d);
    OctetHoldsNo(a, DOT);
    NumbersInFront(a, Tail3(b, c, d));
    hide Dotted, Tail3;
    var t := Dotted(a, b, c, d);
    assert [] + (t + []) == t;
  }

  /** An address behind prose is hidden exactly when the word before it is not "client". */
  lemma AddressHiddenIff(words: seq<seq<byte>>, a: seq<byte>, b: seq<byte>, c: seq<byte>, d: seq<byte>, maximum: nat)
    requires PlainWords(words) && Octet(a) && Octet(b) && Octet(c) && Octet(d) && |Spaced(words)| + 16 <= maximum
    ensures Sanitize(Spaced(words) + Dotted(a, b, c, d), maximum) == Spaced(words) + REDACTED <==>
            words == [] || !SpelledClient(words[|words| - 1])
  {
    hide Spaced, Sanitize, SpelledClient, Octet, HidesToken, Dotted, REDACTED, CLIENT_MARK, IsToken;
    var t := Dotted(a, b, c, d);
    DottedIsToken(a, b, c, d);
    assert t + [] == t;
    MarkLength();
    if words == [] || !SpelledClient(words[|words| - 1]) {
      TokenHides(words, t, [], t, [], [], maximum);
    } else {
      var n := |words| - 1;
      assert PlainWords(words[..n]);
      SpacedSnoc(words[..n], words[n]);
      assert words == words[..n] + [words[n]];
      var w, prose := words[n], Spaced(words[..n]);
      assert |w| == 6 by { SixLetters(w); }
      assert Spaced(words) + t == prose + (w + ([SPACE] + t));
      ClientAddressLeaks(words[..n], w, a, b, c, d, maximum);
      var output := Sanitize(Spaced(words) + t, maximum);
      assert output[|prose| + 8] == CLIENT_MARK[8];
      assert (Spaced(words) + REDACTED)[|prose| + 8] == REDACTED[1];
    }
  }

  lemma SixLetters(w: seq<byte>)
    requires SpelledClient(w)
    ensures |w| == 6
  {
  }

  lemma {:induction false} SpacedSnoc(words: seq<seq<byte>>, w: seq<byte>)
    ensures Spaced(words + [w]) == Spaced(words) + (w + [SPACE])
  {
    if words == [] {
      assert words + [w] == [w];
    } else {
      assert (words + [w])[1..] == words[1..] + [w];
      SpacedSnoc(words[1..], w);
    }
  }
}
