/** The language the JSON reader accepts, as a grammar of its own, and a printer that it reads back. */
module JsonGrammar {
  import opened Bytes
  import opened Wire
  import opened Json

  const NULL_TEXT: seq<byte> := ['n' as int, 'u' as int, 'l' as int, 'l' as int]
  const TRUE_TEXT: seq<byte> := ['t' as int, 'r' as int, 'u' as int, 'e' as int]
  const FALSE_TEXT: seq<byte> := ['f' as int, 'a' as int, 'l' as int, 's' as int, 'e' as int]
  const COMMA: seq<byte> := [',' as int]
  const COLON: seq<byte> := [':' as int]

  // ---- numerals ----

  datatype Exponent = Exponent(letter: byte, sign: seq<byte>, digits: seq<byte>)
  datatype Numeral = Numeral(
    negative: bool, integer: seq<byte>, fraction: Option<seq<byte>>, exponent: Option<Exponent>)
  {
    /** A number by section 6 of RFC 8259. */
    predicate Grammatical() {
      && AllDigits(integer) && (integer[0] == '0' as int ==> |integer| == 1)
      && (fraction.Some? ==> AllDigits(fraction.value))
      && (exponent.Some? ==>
            && (exponent.value.letter == 'e' as int || exponent.value.letter == 'E' as int)
            && (exponent.value.sign == [] || exponent.value.sign == ['+' as int] || exponent.value.sign == ['-' as int])
            && AllDigits(exponent.value.digits))
    }

    function Sign(): seq<byte> {
      if negative then ['-' as int] else []
    }

    function FractionText(): seq<byte> {
      if fraction.Some? then ['.' as int] + fraction.value else []
    }

    function ExponentText(): seq<byte> {
      if exponent.Some? then [exponent.value.letter] + (exponent.value.sign + exponent.value.digits) else []
    }

    function Source(): seq<byte> {
      Sign() + (integer + (FractionText() + ExponentText()))
    }
  }

  predicate AllDigits(s: seq<byte>) {
    s != [] && forall i :: 0 <= i < |s| ==> '0' as int <= s[i] <= '9' as int
  }

  /** What may follow a number without becoming part of it. */
  predicate EndsNumber(rest: seq<byte>) {
    rest == [] ||
    (!IsDigit(rest[0]) && rest[0] != '.' as int && rest[0] != 'e' as int && rest[0] != 'E' as int)
  }

  lemma {:induction false} DigitsTaken(s: seq<byte>, rest: seq<byte>)
    requires forall i :: 0 <= i < |s| ==> IsDigit(s[i])
    requires rest == [] || !IsDigit(rest[0])
    ensures Digits(s + rest) == |s|
  {
    if s == [] {
      assert s + rest == rest;
    } else {
      assert (s + rest)[1..] == s[1..] + rest;
      DigitsTaken(s[1..], rest);
    }
  }

  lemma IntegerTaken(n: Numeral, rest: seq<byte>)
    requires n.Grammatical() && (rest == [] || !IsDigit(rest[0]))
    ensures IntegerLength(n.Sign() + (n.integer + rest)) == |n.Sign() + n.integer| > 0
  {
    var s := n.Sign() + (n.integer + rest);
    DigitsTaken(n.integer, rest);
    assert s[|n.Sign()|..] == n.integer + rest;
  }

  lemma FractionTaken(n: Numeral, rest: seq<byte>)
    requires n.Grammatical() && (rest == [] || (!IsDigit(rest[0]) && rest[0] != '.' as int))
    ensures FractionLength(n.FractionText() + rest) == Some(|n.FractionText()|)
  {
    if n.fraction.Some? {
      DigitsTaken(n.fraction.value, rest);
      assert (n.FractionText() + rest)[1..] == n.fraction.value + rest;
    } else {
      assert n.FractionText() + rest == rest;
    }
  }

  lemma Dropped(a: seq<byte>, b: seq<byte>)
    ensures (a + b)[|a|..] == b
  {
  }

  lemma ExponentSign(letter: byte, sign: seq<byte>, tail: seq<byte>)
    requires letter == 0x65 || letter == 0x45
    requires (sign == [] || sign == [0x2b] || sign == [0x2d]) && tail != [] && IsDigit(tail[0])
    ensures var s := ([letter] + sign) + tail;
            Digits(s[1 + |sign|..]) > 0 ==> ExponentLength(s) == Some(1 + |sign| + Digits(s[1 + |sign|..]))
  {
    hide Digits;
    var s := ([letter] + sign) + tail;
    assert s[0] == letter && s[1] == if sign == [] then tail[0] else sign[0];
  }

  lemma ExponentTaken(n: Numeral, rest: seq<byte>)
    requires n.Grammatical() && EndsNumber(rest)
    ensures ExponentLength(n.ExponentText() + rest) == Some(|n.ExponentText()|)
  {
    if n.exponent.Some? {
      var e := n.exponent.value;
      DigitsTaken(e.digits, rest);
      var tail := e.digits + rest;
      Associates(e.sign, e.digits, rest);
      Associates([e.letter], e.sign + e.digits, rest);
      Associates([e.letter], e.sign, tail);
      assert n.ExponentText() + rest == [e.letter] + (e.sign + tail) == ([e.letter] + e.sign) + tail;
      Dropped([e.letter] + e.sign, tail);
      ExponentSign(e.letter, e.sign, tail);
    } else {
      assert n.ExponentText() + rest == rest;
    }
  }

  lemma NumeralReads(n: Numeral, rest: seq<byte>)
    requires n.Grammatical() && EndsNumber(rest)
    ensures ReadNumber(n.Source() + rest) == Parsed(n.Source(), rest)
  {
    hide IntegerLength, FractionLength, ExponentLength, Numeral.Sign, Numeral.FractionText, Numeral.ExponentText,
         Numeral.Grammatical, EndsNumber;
    var fraction, exponent := n.FractionText(), n.ExponentText();
    TailStarts(n, rest);
    IntegerTaken(n, fraction + (exponent + rest));
    FractionTaken(n, exponent + rest);
    ExponentTaken(n, rest);
    Associates(n.Sign(), n.integer, fraction + (exponent + rest));
    Pieces(n.Sign() + n.integer, fraction, exponent, rest);
    Associates(n.Sign(), n.integer, fraction + exponent);
  }

  lemma Associates(a: seq<byte>, b: seq<byte>, c: seq<byte>)
    ensures a + (b + c) == (a + b) + c
  {
  }

  lemma Pieces(a: seq<byte>, b: seq<byte>, c: seq<byte>, rest: seq<byte>)
    ensures var s := a + (b + (c + rest));
            && s[|a|..] == b + (c + rest) && s[|a| + |b|..] == c + rest && s[|a| + |b| + |c|..] == rest
            && s[..|a| + |b| + |c|] == a + (b + c)
            && forall t :: t == a + (b + c) ==> t + rest == s
  {
    assert a + (b + c) + rest == a + (b + (c + rest));
  }

  /** The parts of a numeral begin with bytes that end the part before. */
  lemma TailStarts(n: Numeral, rest: seq<byte>)
    requires n.Grammatical() && EndsNumber(rest)
    ensures var t := n.ExponentText() + rest; t == [] || (!IsDigit(t[0]) && t[0] != '.' as int)
    ensures var t := n.FractionText() + (n.ExponentText() + rest); t == [] || !IsDigit(t[0])
  {
  }

  /** Whatever the reader takes as a number is a numeral. */
  lemma NumberIsNumeral(s: seq<byte>) returns (n: Numeral)
    requires ReadNumber(s).Parsed?
    ensures n.Grammatical() && ReadNumber(s).value == n.Source()
  {
    hide IntegerLength, FractionLength, ExponentLength, AllDigits;
    var i := IntegerLength(s);
    var negative, integer := IntegerPart(s);
    var f := FractionLength(s[i..]).value;
    var fraction := FractionPart(s[i..]);
    var e := ExponentLength(s[i + f..]).value;
    var exponent := ExponentPart(s[i + f..]);
    n := Numeral(negative, integer, fraction, exponent);
    assert n.Grammatical() by { PartsAreGrammatical(n); }
    Front(s, i, f, e);
    Associates(n.Sign(), integer, n.FractionText() + n.ExponentText());
  }

  lemma PartsAreGrammatical(n: Numeral)
    requires AllDigits(n.integer) && (n.integer[0] == '0' as int ==> |n.integer| == 1)
    requires n.fraction.Some? ==> AllDigits(n.fraction.value)
    requires Numeral(false, ['0' as int], None, n.exponent).Grammatical()
    ensures n.Grammatical()
  {
  }

  lemma Front(s: seq<byte>, i: nat, f: nat, e: nat)
    requires i + f + e <= |s|
    ensures s[..i + f + e] == s[..i] + (s[i..][..f] + s[i + f..][..e])
  {
    TakenTogether(s, i, f + e);
    TakenTogether(s[i..], f, e);
    assert s[i..][f..] == s[i + f..];
  }

  lemma TakenTogether(s: seq<byte>, i: nat, n: nat)
    requires i + n <= |s|
    ensures s[..i + n] == s[..i] + s[i..][..n]
  {
  }

  lemma IntegerPart(s: seq<byte>) returns (negative: bool, integer: seq<byte>)
    requires IntegerLength(s) > 0
    ensures AllDigits(integer) && (integer[0] == '0' as int ==> |integer| == 1)
    ensures s[..IntegerLength(s)] == (if negative then ['-' as int] else []) + integer
  {
    negative := s[0] == '-' as int;
    var t := s[if negative then 1 else 0..];
    integer := if t[0] == '0' as int then t[..1] else t[..Digits(t)];
  }

  lemma FractionPart(s: seq<byte>) returns (fraction: Option<seq<byte>>)
    requires FractionLength(s).Some?
    ensures fraction.Some? ==> AllDigits(fraction.value)
    ensures s[..FractionLength(s).value] == if fraction.Some? then ['.' as int] + fraction.value else []
  {
    if FractionLength(s).value == 0 {
      fraction := None;
    } else {
      fraction := Some(s[1..][..Digits(s[1..])]);
    }
  }

  lemma ExponentPart(s: seq<byte>) returns (exponent: Option<Exponent>)
    requires ExponentLength(s).Some?
    ensures Numeral(false, ['0' as int], None, exponent).Grammatical()
    ensures s[..ExponentLength(s).value] == Numeral(false, ['0' as int], None, exponent).ExponentText()
  {
    if ExponentLength(s).value == 0 {
      exponent := None;
    } else {
      var sign := if |s| > 1 && (s[1] == 0x2b || s[1] == 0x2d) then 1 else 0;
      var t := s[1 + sign..];
      exponent := Some(Exponent(s[0], s[1..1 + sign], t[..Digits(t)]));
      Front(s, 1, sign, Digits(t));
      assert s[..1] == [s[0]];
    }
  }

  // ---- documents ----

  /** A JSON text with its white space and the spelling of its strings and numbers. */
  datatype Doc =
    | Nil
    | Truth(value: bool)
    | Numeric(number: Numeral)
    | Text(items: seq<Item>)
    | Braces(gap: seq<byte>, fields: seq<Field>)
    | Brackets(gap: seq<byte>, entries: seq<Entry>)

  datatype Entry = Entry(before: seq<byte>, doc: Doc, after: seq<byte>)
  datatype Field = Field(front: seq<byte>, key: seq<Item>, colon: seq<byte>, entry: Entry)

  function Literal(items: seq<Item>): seq<byte> {
    [QUOTE] + (Sources(items) + [QUOTE])
  }

  /** How a document is written. */
  function Source(doc: Doc): seq<byte> {
    match doc
    case Nil => NULL_TEXT
    case Truth(value) => if value then TRUE_TEXT else FALSE_TEXT
    case Numeric(number) => number.Source()
    case Text(items) => Literal(items)
    case Braces(gap, fields) => ['{' as int] + ((if fields == [] then gap else FieldsSource(fields)) + ['}' as int])
    case Brackets(gap, entries) =>
      ['[' as int] + ((if entries == [] then gap else EntriesSource(entries)) + [']' as int])
  }

  function EntrySource(entry: Entry): seq<byte> {
    entry.before + (Source(entry.doc) + entry.after)
  }

  function EntriesSource(entries: seq<Entry>): seq<byte>
    requires entries != []
  {
    EntrySource(entries[0]) + if |entries| == 1 then [] else COMMA + EntriesSource(entries[1..])
  }

  function FieldSource(field: Field): seq<byte> {
    field.front + (Literal(field.key) + (field.colon + (COLON + EntrySource(field.entry))))
  }

  function FieldsSource(fields: seq<Field>): seq<byte>
    requires fields != []
  {
    FieldSource(fields[0]) + if |fields| == 1 then [] else COMMA + FieldsSource(fields[1..])
  }

  ghost function TextOf(items: seq<Item>): seq<byte> {
    if Lexical(items) then Texts(items) else []
  }

  /** What a document stands for. */
  ghost function Meaning(doc: Doc): Json {
    match doc
    case Nil => Null
    case Truth(value) => Boolean(value)
    case Numeric(number) => Number(number.Source())
    case Text(items) => String(TextOf(items))
    case Braces(_, fields) => Object(MeaningOfFields(fields))
    case Brackets(_, entries) => Array(MeaningOfEntries(entries))
  }

  ghost function MeaningOfEntries(entries: seq<Entry>): (r: seq<Json>)
    ensures |r| == |entries|
  {
    if entries == [] then [] else [Meaning(entries[0].doc)] + MeaningOfEntries(entries[1..])
  }

  ghost function MeaningOfField(field: Field): Member {
    Member(TextOf(field.key), Meaning(field.entry.doc))
  }

  ghost function MeaningOfFields(fields: seq<Field>): (r: seq<Member>)
    ensures |r| == |fields|
  {
    if fields == [] then [] else [MeaningOfField(fields[0])] + MeaningOfFields(fields[1..])
  }

  ghost predicate Spaces(s: seq<byte>) {
    forall i :: 0 <= i < |s| ==> IsSpace(s[i])
  }

  ghost predicate Readable(items: seq<Item>) {
    Lexical(items) && |Texts(items)| <= MAX_STRING && ValidUtf8(Sources(items)) && SurrogateFree(items)
  }

  /** Within the limits: `levels` bounds the nesting, every value included. */
  ghost predicate Formed(doc: Doc, levels: nat) {
    levels > 0 &&
    match doc
    case Nil => true
    case Truth(_) => true
    case Numeric(number) => number.Grammatical()
    case Text(items) => Readable(items)
    case Braces(gap, fields) =>
      Spaces(gap) && |fields| <= MAX_MEMBERS && DistinctKeys(MeaningOfFields(fields)) &&
      FormedFields(fields, levels - 1)
    case Brackets(gap, entries) => Spaces(gap) && |entries| <= MAX_MEMBERS && FormedEntries(entries, levels - 1)
  }

  ghost predicate FormedEntry(entry: Entry, levels: nat) {
    Spaces(entry.before) && Formed(entry.doc, levels) && Spaces(entry.after)
  }

  ghost predicate FormedEntries(entries: seq<Entry>, levels: nat) {
    entries == [] || (FormedEntry(entries[0], levels) && FormedEntries(entries[1..], levels))
  }

  ghost predicate FormedField(field: Field, levels: nat) {
    Spaces(field.front) && Readable(field.key) && Spaces(field.colon) && FormedEntry(field.entry, levels)
  }

  ghost predicate FormedFields(fields: seq<Field>, levels: nat) {
    fields == [] || (FormedField(fields[0], levels) && FormedFields(fields[1..], levels))
  }

  // ---- documents are read ----

  lemma {:induction false} SpacesSkipped(space: seq<byte>, s: seq<byte>)
    requires Spaces(space)
    ensures SkipSpace(space + s) == SkipSpace(s)
  {
    if space == [] {
      assert space + s == s;
    } else {
      assert (space + s)[1..] == space[1..] + s;
      SpacesSkipped(space[1..], s);
    }
  }

  lemma {:induction false} SpaceSplits(s: seq<byte>) returns (space: seq<byte>)
    ensures Spaces(space) && s == space + SkipSpace(s)
    ensures SkipSpace(SkipSpace(s)) == SkipSpace(s)
  {
    if s != [] && IsSpace(s[0]) {
      var rest := SpaceSplits(s[1..]);
      space := [s[0]] + rest;
      assert s == [s[0]] + s[1..];
    } else {
      space := [];
    }
  }

  /** A document starts with no space and no closing bracket. */
  lemma DocStarts(doc: Doc, levels: nat)
    requires Formed(doc, levels)
    ensures Source(doc) != [] && !IsSpace(Source(doc)[0]) && Source(doc)[0] != ']' as int
  {
    hide Sources, EntriesSource, FieldsSource, MeaningOfFields, FormedFields, FormedEntries, Readable;
    if doc.Numeric? {
      NumeralStarts(doc.number);
    }
  }

  lemma NumeralStarts(n: Numeral)
    requires n.Grammatical()
    ensures n.Source() != [] && (n.Source()[0] == '-' as int || '0' as int <= n.Source()[0] <= '9' as int)
  {
    hide Numeral.FractionText, Numeral.ExponentText;
  }

  lemma LiteralReads(items: seq<Item>, rest: seq<byte>)
    requires Readable(items)
    ensures ReadString(Literal(items) + rest) == Parsed(TextOf(items), rest)
    ensures (Literal(items) + rest)[0] == QUOTE
  {
    hide Texts, Sources, ReadString, ValidUtf8, SurrogateFree, Lexical;
    LiteralReadableIff(items, rest);
    assert Literal(items) + rest == [QUOTE] + (Sources(items) + ([QUOTE] + rest));
  }

  lemma WordReads(doc: Doc, rest: seq<byte>, depth: nat)
    requires (doc.Nil? || doc.Truth?) && depth <= MAX_DEPTH
    ensures ReadValue(Source(doc) + rest, depth) == Parsed(Meaning(doc), rest)
  {
    hide ReadMembers, ReadElements, ReadString, ReadNumber;
    var s := Source(doc) + rest;
    assert SkipSpace(s) == s;
    assert s[|Source(doc)|..] == rest;
  }

  lemma ValueIgnoresSpace(space: seq<byte>, s: seq<byte>, depth: nat)
    requires Spaces(space)
    ensures ReadValue(space + s, depth) == ReadValue(s, depth)
    ensures ReadValue(SkipSpace(s), depth) == ReadValue(s, depth)
  {
    hide ReadMembers, ReadElements, ReadString, ReadNumber, ReadWord, SkipSpace, Spaces;
    SpacesSkipped(space, s);
    var front := SpaceSplits(s);
  }

  lemma NumericReads(n: Numeral, rest: seq<byte>, depth: nat)
    requires n.Grammatical() && EndsNumber(rest) && depth <= MAX_DEPTH
    ensures ReadValue(n.Source() + rest, depth) == Parsed(Number(n.Source()), rest)
  {
    hide ReadMembers, ReadElements, ReadString, ReadNumber, ReadWord, Numeral.Source, Numeral.Grammatical, EndsNumber;
    NumeralStarts(n);
    NumeralReads(n, rest);
    assert SkipSpace(n.Source() + rest) == n.Source() + rest;
  }

  lemma TextReads(items: seq<Item>, rest: seq<byte>, depth: nat)
    requires Readable(items) && depth <= MAX_DEPTH
    ensures ReadValue(Literal(items) + rest, depth) == Parsed(String(TextOf(items)), rest)
  {
    hide ReadMembers, ReadElements, ReadString, ReadNumber, ReadWord, Literal, Readable, TextOf;
    LiteralReads(items, rest);
    assert SkipSpace(Literal(items) + rest) == Literal(items) + rest;
  }

  /** The reader takes a document to what it stands for, and stops behind it. */
  lemma {:induction false} DocReads(doc: Doc, rest: seq<byte>, depth: nat)
    requires depth <= MAX_DEPTH && Formed(doc, MAX_DEPTH + 1 - depth) && EndsNumber(rest)
    ensures ReadValue(Source(doc) + rest, depth) == Parsed(Meaning(doc), rest)
    decreases doc, 3
  {
    hide ReadValue, ReadMembers, ReadElements, Numeral.Grammatical, Readable, TextOf, Sources;
    match doc {
      case Nil => WordReads(doc, rest, depth);
      case Truth(_) => WordReads(doc, rest, depth);
      case Numeric(number) => NumericReads(number, rest, depth);
      case Text(items) => TextReads(items, rest, depth);
      case Braces(gap, fields) =>
        if fields == [] {
          EmptyReads(doc, rest, depth);
        } else {
          assert [] + MeaningOfFields(fields) == MeaningOfFields(fields);
          FieldsRead(fields, rest, depth + 1, []);
          BracesRead(doc, rest, depth);
        }
      case Brackets(gap, entries) =>
        if entries == [] {
          EmptyReads(doc, rest, depth);
        } else {
          EntriesRead(entries, rest, depth + 1, []);
          BracketsRead(doc, rest, depth);
        }
    }
  }

  lemma EmptyReads(doc: Doc, rest: seq<byte>, depth: nat)
    requires (doc.Braces? && doc.fields == []) || (doc.Brackets? && doc.entries == [])
    requires Spaces(doc.gap) && depth <= MAX_DEPTH
    ensures ReadValue(Source(doc) + rest, depth) == Parsed(Meaning(doc), rest)
  {
    hide ReadMembers, ReadElements, ReadString, ReadNumber, ReadWord, Spaces;
    var close := if doc.Braces? then ['}' as int] else [']' as int];
    var s := Source(doc) + rest;
    assert SkipSpace(s) == s;
    assert s[1..] == doc.gap + (close + rest);
    SpacesSkipped(doc.gap, close + rest);
    assert SkipSpace(close + rest) == close + rest;
    assert (close + rest)[1..] == rest;
  }

  // ---- elements and members ----

  const BRACE: seq<byte> := ['}' as int]
  const BRACKET: seq<byte> := [']' as int]

  /** What follows the first of several entries. */
  function EntriesAfter(entries: seq<Entry>, close: seq<byte>): seq<byte>
    requires entries != []
  {
    if |entries| == 1 then close else COMMA + (EntriesSource(entries[1..]) + close)
  }

  function FieldsAfter(fields: seq<Field>, close: seq<byte>): seq<byte>
    requires fields != []
  {
    if |fields| == 1 then close else COMMA + (FieldsSource(fields[1..]) + close)
  }

  lemma EntriesUnfold(entries: seq<Entry>, close: seq<byte>)
    requires entries != []
    ensures var e := entries[0];
            EntriesSource(entries) + close == e.before + (Source(e.doc) + (e.after + EntriesAfter(entries, close)))
  {
    hide Source;
    var e := entries[0];
    var more := if |entries| == 1 then [] else COMMA + EntriesSource(entries[1..]);
    assert more + close == EntriesAfter(entries, close);
    EntryUnfold(e, more, close);
  }

  lemma EntryUnfold(e: Entry, more: seq<byte>, close: seq<byte>)
    ensures EntrySource(e) + more + close == e.before + (Source(e.doc) + (e.after + (more + close)))
  {
    hide Source;
  }

  lemma FieldsUnfold(fields: seq<Field>, close: seq<byte>)
    requires fields != []
    ensures var f := fields[0];
            FieldsSource(fields) + close == f.front + (Literal(f.key) + (f.colon + (COLON + (f.entry.before +
              (Source(f.entry.doc) + (f.entry.after + FieldsAfter(fields, close)))))))
  {
    hide Source, Literal;
    var f := fields[0];
    var more := if |fields| == 1 then [] else COMMA + FieldsSource(fields[1..]);
    assert more + close == FieldsAfter(fields, close);
    FieldUnfold(f, more, close);
  }

  lemma FieldUnfold(f: Field, more: seq<byte>, close: seq<byte>)
    ensures FieldSource(f) + more + close == f.front + (Literal(f.key) + (f.colon + (COLON + (f.entry.before +
              (Source(f.entry.doc) + (f.entry.after + (more + close)))))))
  {
    hide Source, Literal;
    var e, tail := f.entry, more + close;
    assert FieldSource(f) + more + close == FieldSource(f) + tail;
    assert EntrySource(e) + tail == e.before + (Source(e.doc) + (e.after + tail));
    Fourth(f.front, Literal(f.key), f.colon, COLON + EntrySource(e), tail);
    assert COLON + EntrySource(e) + tail == COLON + (EntrySource(e) + tail);
  }

  lemma Fourth(a: seq<byte>, b: seq<byte>, c: seq<byte>, d: seq<byte>, tail: seq<byte>)
    ensures a + (b + (c + d)) + tail == a + (b + (c + (d + tail)))
  {
  }

  /** White space, a comma or a closing bracket ends a number. */
  lemma AfterEnds(space: seq<byte>, more: seq<byte>)
    requires Spaces(space) && more != [] && !IsSpace(more[0]) && EndsNumber(more)
    ensures EndsNumber(space + more) && SkipSpace(space + more) == more
  {
    SpacesSkipped(space, more);
    if space == [] {
      assert space + more == more;
    }
  }

  lemma ElementStep(s: seq<byte>, depth: nat, done: seq<Json>, v: Json, u: seq<byte>)
    requires s != [] && |done| < MAX_MEMBERS && ReadValue(s, depth) == Parsed(v, u) && SkipSpace(u) != []
    ensures var next := SkipSpace(u);
            ReadElements(s, depth, done) ==
              if next[0] == ']' as int then Parsed(Array(done + [v]), next[1..])
              else if next[0] != ',' as int then Malformed
              else ReadElements(SkipSpace(next[1..]), depth, done + [v])
  {
    hide ReadValue, SkipSpace;
  }

  lemma MemberStep(s: seq<byte>, depth: nat, done: seq<Member>, m: Member, u: seq<byte>)
    requires |done| < MAX_MEMBERS && ReadMember(s, depth) == Parsed(m, u) && SkipSpace(u) != []
    requires !HasKey(done, m.key)
    ensures var next := SkipSpace(u);
            ReadMembers(s, depth, done) ==
              if next[0] == '}' as int then Parsed(Object(done + [m]), next[1..])
              else if next[0] != ',' as int then Malformed
              else ReadMembers(SkipSpace(next[1..]), depth, done + [m])
  {
    hide ReadMember, SkipSpace;
  }

  lemma SpaceThenDoc(space: seq<byte>, doc: Doc, levels: nat, rest: seq<byte>)
    requires Spaces(space) && Formed(doc, levels)
    ensures SkipSpace(space + (Source(doc) + rest)) == Source(doc) + rest
  {
    hide Source, Formed, Spaces, IsSpace;
    DocStarts(doc, levels);
    SpacesSkipped(space, Source(doc) + rest);
  }

  lemma {:induction false} EntriesRead(entries: seq<Entry>, rest: seq<byte>, depth: nat, done: seq<Json>)
    requires entries != [] && 1 <= depth <= MAX_DEPTH + 1 && FormedEntries(entries, MAX_DEPTH + 1 - depth)
    requires |done| + |entries| <= MAX_MEMBERS
    ensures ReadElements(SkipSpace(EntriesSource(entries) + (BRACKET + rest)), depth, done) ==
            Parsed(Array(done + MeaningOfEntries(entries)), rest)
    decreases entries, 2
  {
    hide Source, Formed, FormedEntries, EntriesSource, EntriesAfter, ReadElements, ReadValue, SkipSpace, Meaning,
         Spaces, EndsNumber, IsSpace;
    var e, tail := entries[0], entries[1..];
    var close := BRACKET + rest;
    var more := EntriesAfter(entries, close);
    EntriesUnfold(entries, close);
    EntriesFormed(entries, MAX_DEPTH + 1 - depth);
    SpaceThenDoc(e.before, e.doc, MAX_DEPTH + 1 - depth, e.after + more);
    EntriesAfterStarts(entries, rest);
    AfterEnds(e.after, more);
    DocReads(e.doc, e.after + more, depth);
    DocStarts(e.doc, MAX_DEPTH + 1 - depth);
    ElementStep(Source(e.doc) + (e.after + more), depth, done, Meaning(e.doc), e.after + more);
    if |entries| == 1 {
      assert MeaningOfEntries(entries) == [Meaning(e.doc)];
    } else {
      EntriesRead(tail, rest, depth, done + [Meaning(e.doc)]);
      Appended(done, Meaning(e.doc), MeaningOfEntries(tail));
    }
  }

  lemma Appended<T>(a: seq<T>, x: T, b: seq<T>)
    ensures a + [x] + b == a + ([x] + b)
  {
  }

  lemma EntriesAfterStarts(entries: seq<Entry>, rest: seq<byte>)
    requires entries != []
    ensures var more := EntriesAfter(entries, BRACKET + rest);
            && more != [] && !IsSpace(more[0]) && EndsNumber(more)
            && if |entries| == 1 then more[0] == ']' as int && more[1..] == rest
               else more[0] == ',' as int && more[1..] == EntriesSource(entries[1..]) + (BRACKET + rest)
  {
    hide EntriesSource;
  }

  lemma EntriesFormed(entries: seq<Entry>, levels: nat)
    requires entries != [] && FormedEntries(entries, levels)
    ensures var e := entries[0];
            levels > 0 && Spaces(e.before) && Formed(e.doc, levels) && Spaces(e.after) &&
            FormedEntries(entries[1..], levels)
  {
  }

  lemma FieldsFormed(fields: seq<Field>, levels: nat)
    requires fields != [] && FormedFields(fields, levels)
    ensures var f := fields[0];
            levels > 0 && Spaces(f.front) && FormedField(f, levels) && FormedFields(fields[1..], levels) &&
            Spaces(f.entry.before) && Formed(f.entry.doc, levels) && Spaces(f.entry.after)
  {
    assert FormedField(fields[0], levels);
    assert FormedEntry(fields[0].entry, levels);
    assert Formed(fields[0].entry.doc, levels);
  }

  lemma BracketsRead(doc: Doc, rest: seq<byte>, depth: nat)
    requires doc.Brackets? && doc.entries != [] && depth <= MAX_DEPTH && Formed(doc, MAX_DEPTH + 1 - depth)
    requires ReadElements(SkipSpace(EntriesSource(doc.entries) + (BRACKET + rest)), depth + 1, []) ==
             Parsed(Array([] + MeaningOfEntries(doc.entries)), rest)
    ensures ReadValue(Source(doc) + rest, depth) == Parsed(Meaning(doc), rest)
  {
    hide EntriesSource, ReadElements, ReadMembers, ReadString, ReadNumber, ReadWord, MeaningOfEntries, FormedEntries;
    EntriesFormed(doc.entries, MAX_DEPTH - depth);
    var e := doc.entries[0];
    var s := Source(doc) + rest;
    assert SkipSpace(s) == s;
    assert s[1..] == EntriesSource(doc.entries) + (BRACKET + rest);
    hide Source, SkipSpace;
    EntriesUnfold(doc.entries, BRACKET + rest);
    SpaceThenDoc(e.before, e.doc, MAX_DEPTH - depth, e.after + EntriesAfter(doc.entries, BRACKET + rest));
    DocStarts(e.doc, MAX_DEPTH - depth);
    assert [] + MeaningOfEntries(doc.entries) == MeaningOfEntries(doc.entries);
  }

  // ---- the same for members ----

  lemma FieldReads(f: Field, more: seq<byte>, depth: nat)
    requires depth <= MAX_DEPTH && FormedField(f, MAX_DEPTH + 1 - depth)
    requires more != [] && !IsSpace(more[0]) && EndsNumber(more)
    requires ReadValue(Source(f.entry.doc) + (f.entry.after + more), depth) ==
             Parsed(Meaning(f.entry.doc), f.entry.after + more)
    ensures ReadMember(Literal(f.key) + (f.colon + (COLON + (f.entry.before +
              (Source(f.entry.doc) + (f.entry.after + more))))), depth) ==
            Parsed(MeaningOfField(f), f.entry.after + more)
  {
    hide Source, Formed, ReadValue, ReadString, Literal, Readable, Spaces, EndsNumber, TextOf, Meaning;
    var value := Source(f.entry.doc) + (f.entry.after + more);
    LiteralReads(f.key, f.colon + (COLON + (f.entry.before + value)));
    SpacesSkipped(f.colon, COLON + (f.entry.before + value));
    var colon := COLON + (f.entry.before + value);
    assert SkipSpace(colon) == colon;
    assert colon[1..] == f.entry.before + value;
    ValueIgnoresSpace(f.entry.before, value, depth);
  }

  lemma {:induction false} FieldsRead(fields: seq<Field>, rest: seq<byte>, depth: nat, done: seq<Member>)
    requires fields != [] && 1 <= depth <= MAX_DEPTH + 1 && FormedFields(fields, MAX_DEPTH + 1 - depth)
    requires |done| + |fields| <= MAX_MEMBERS && DistinctKeys(done + MeaningOfFields(fields))
    ensures ReadMembers(SkipSpace(FieldsSource(fields) + (BRACE + rest)), depth, done) ==
            Parsed(Object(done + MeaningOfFields(fields)), rest)
    decreases fields, 2
  {
    hide Source, Formed, FormedFields, FormedField, FieldsSource, ReadMembers, ReadMember, ReadValue, SkipSpace,
         Meaning, MeaningOfField, Literal, Readable, Spaces, DistinctKeys;
    var f, tail := fields[0], fields[1..];
    var close := BRACE + rest;
    var more := FieldsAfter(fields, close);
    FieldsUnfold(fields, close);
    FieldsFormed(fields, MAX_DEPTH + 1 - depth);
    assert EndsNumber(more) && !IsSpace(more[0]);
    AfterEnds(f.entry.after, more);
    DocReads(f.entry.doc, f.entry.after + more, depth);
    FieldReads(f, more, depth);
    var s := Literal(f.key) + (f.colon + (COLON + (f.entry.before +
               (Source(f.entry.doc) + (f.entry.after + more)))));
    SpacesSkipped(f.front, s);
    LiteralStarts(f.key, f.colon + (COLON + (f.entry.before + (Source(f.entry.doc) + (f.entry.after + more)))));
    NewKey(done, fields);
    MemberStep(s, depth, done, MeaningOfField(f), f.entry.after + more);
    if |fields| == 1 {
      assert more[1..] == rest && MeaningOfFields(fields) == [MeaningOfField(f)];
    } else {
      assert more[1..] == FieldsSource(tail) + close;
      Appended(done, MeaningOfField(f), MeaningOfFields(tail));
      FieldsRead(tail, rest, depth, done + [MeaningOfField(f)]);
    }
  }

  lemma LiteralStarts(items: seq<Item>, rest: seq<byte>)
    ensures SkipSpace(Literal(items) + rest) == Literal(items) + rest && (Literal(items) + rest)[0] == QUOTE
  {
    hide Sources;
  }

  lemma NewKey(done: seq<Member>, fields: seq<Field>)
    requires fields != [] && DistinctKeys(done + MeaningOfFields(fields))
    ensures !HasKey(done, MeaningOfField(fields[0]).key)
  {
    hide MeaningOfField;
    var all := done + MeaningOfFields(fields);
    assert all[|done|] == MeaningOfField(fields[0]);
    assert forall i :: 0 <= i < |done| ==> all[i] == done[i];
  }

  lemma BracesRead(doc: Doc, rest: seq<byte>, depth: nat)
    requires doc.Braces? && doc.fields != [] && depth <= MAX_DEPTH && Formed(doc, MAX_DEPTH + 1 - depth)
    requires ReadMembers(SkipSpace(FieldsSource(doc.fields) + (BRACE + rest)), depth + 1, []) ==
             Parsed(Object([] + MeaningOfFields(doc.fields)), rest)
    ensures ReadValue(Source(doc) + rest, depth) == Parsed(Meaning(doc), rest)
  {
    hide FieldsSource, ReadElements, ReadMembers, ReadString, ReadNumber, ReadWord, MeaningOfFields, DistinctKeys,
         FormedFields, FormedField;
    FieldsFormed(doc.fields, MAX_DEPTH - depth);
    var f := doc.fields[0];
    var s := Source(doc) + rest;
    assert SkipSpace(s) == s;
    assert s[1..] == FieldsSource(doc.fields) + (BRACE + rest);
    hide Source, SkipSpace, Literal, Readable, Spaces;
    FieldsUnfold(doc.fields, BRACE + rest);
    var more := f.entry.before + (Source(f.entry.doc) + (f.entry.after + FieldsAfter(doc.fields, BRACE + rest)));
    SpacesSkipped(f.front, Literal(f.key) + (f.colon + (COLON + more)));
    LiteralStarts(f.key, f.colon + (COLON + more));
    assert [] + MeaningOfFields(doc.fields) == MeaningOfFields(doc.fields);
  }

  // ---- what is read is a document ----

  lemma {:induction false} ReadIsDoc(s: seq<byte>, depth: nat) returns (before: seq<byte>, doc: Doc)
    requires ReadValue(s, depth).Parsed?
    ensures depth <= MAX_DEPTH && Formed(doc, MAX_DEPTH + 1 - depth) && Spaces(before)
    ensures var p := ReadValue(s, depth);
            Meaning(doc) == p.value && s == before + (Source(doc) + p.rest)
    decreases |s|, 3
  {
    hide ReadValue, Formed, Meaning, Source;
    before := SpaceSplits(s);
    ValueIgnoresSpace([], s, depth);
    var t := SkipSpace(s);
    ValueHere(s, depth);
    if t[0] == 0x7b {
      doc := ReadIsBraces(t, depth);
    } else if t[0] == 0x5b {
      doc := ReadIsBrackets(t, depth);
    } else {
      doc := ReadIsScalar(t, depth);
    }
  }

  lemma ValueHere(s: seq<byte>, depth: nat)
    requires ReadValue(s, depth).Parsed?
    ensures depth <= MAX_DEPTH && SkipSpace(s) != []
  {
    hide ReadMembers, ReadElements, ReadString, ReadNumber, ReadWord;
  }

  lemma ReadIsScalar(t: seq<byte>, depth: nat) returns (doc: Doc)
    requires ReadValue(t, depth).Parsed? && SkipSpace(t) == t != [] && t[0] != 0x7b && t[0] != 0x5b
    ensures Formed(doc, MAX_DEPTH + 1 - depth)
    ensures var p := ReadValue(t, depth); Meaning(doc) == p.value && t == Source(doc) + p.rest
  {
    hide ReadMembers, ReadElements, ReadString, ReadNumber, Numeral.Source, Literal, Readable, TextOf;
    if t[0] == QUOTE {
      doc := ReadIsText(t);
    } else if t[0] == 0x74 {
      doc := Truth(true);
    } else if t[0] == 0x66 {
      doc := Truth(false);
    } else if t[0] == 0x6e {
      doc := Nil;
    } else {
      var n := NumberIsNumeral(t);
      doc := Numeric(n);
    }
  }

  lemma ReadIsText(t: seq<byte>) returns (doc: Doc)
    requires ReadString(t).Parsed?
    ensures doc.Text? && Readable(doc.items) && TextOf(doc.items) == ReadString(t).value
    ensures t == Literal(doc.items) + ReadString(t).rest
  {
    hide ReadString, Lexical, Sources, Texts, SurrogateFree, ValidUtf8;
    ReadableIsLiteral(t);
    var rest := ReadString(t).rest;
    var items :| && Lexical(items) && t == [QUOTE] + (Sources(items) + ([QUOTE] + rest))
                 && |Texts(items)| <= MAX_STRING && ValidUtf8(Sources(items)) && SurrogateFree(items)
                 && ReadString(t).value == Texts(items);
    doc := Text(items);
    assert t == Literal(items) + rest;
  }

  lemma {:induction false} ReadIsBrackets(t: seq<byte>, depth: nat) returns (doc: Doc)
    requires ReadValue(t, depth).Parsed? && SkipSpace(t) == t != [] && t[0] == 0x5b
    ensures Formed(doc, MAX_DEPTH + 1 - depth)
    ensures var p := ReadValue(t, depth); Meaning(doc) == p.value && t == Source(doc) + p.rest
    decreases |t|, 2
  {
    hide ReadElements, ReadMembers, SkipSpace, FormedEntries, EntriesSource, MeaningOfEntries, Spaces;
    var p := ReadValue(t, depth);
    var u := SkipSpace(t[1..]);
    if u != [] && u[0] == 0x5d {
      var gap := SpaceSplits(t[1..]);
      doc := Brackets(gap, []);
      assert u == BRACKET + p.rest;
      assert t == Source(doc) + p.rest;
      NoEntries();
    } else {
      var entries := ReadIsEntries(t[1..], depth + 1, []);
      doc := Brackets([], entries);
      NoSpaces();
      assert [] + MeaningOfEntries(entries) == MeaningOfEntries(entries);
      assert t == ['[' as int] + t[1..];
      assert t == Source(doc) + p.rest;
    }
  }

  lemma NoSpaces()
    ensures Spaces([])
  {
  }

  lemma NoEntries()
    ensures MeaningOfEntries([]) == [] && MeaningOfFields([]) == [] && DistinctKeys([])
    ensures forall levels :: FormedEntries([], levels) && FormedFields([], levels)
  {
  }

  /** The elements of an array up to its closing bracket. */
  lemma {:induction false} ReadIsEntries(t: seq<byte>, depth: nat, done: seq<Json>) returns (entries: seq<Entry>)
    requires ReadElements(SkipSpace(t), depth, done).Parsed? && 1 <= depth
    ensures entries != [] && |done| + |entries| <= MAX_MEMBERS
    ensures depth <= MAX_DEPTH && FormedEntries(entries, MAX_DEPTH + 1 - depth)
    ensures var p := ReadElements(SkipSpace(t), depth, done);
            p.value == Array(done + MeaningOfEntries(entries)) && t == EntriesSource(entries) + (BRACKET + p.rest)
    decreases |t|, 4
  {
    hide ReadValue, SkipSpace, Formed, FormedEntries, Source, EntriesSource, Meaning, MeaningOfEntries, Spaces;
    var s := SkipSpace(t);
    var front := SpaceSplits(t);
    var p := ReadElements(s, depth, done);
    var child := ReadValue(s, depth);
    var inner, doc := ReadIsDoc(s, depth);
    var after := SpaceSplits(child.rest);
    var next := SkipSpace(child.rest);
    JoinedSpaces(front, inner);
    var entry := Entry(front + inner, doc, after);
    var grown := done + [child.value];
    assert t == entry.before + (Source(doc) + (after + next));
    if next[0] == 0x5d {
      entries := [entry];
      OneEntry(entry, MAX_DEPTH + 1 - depth);
      assert next == BRACKET + p.rest;
    } else {
      var tail := ReadIsEntries(next[1..], depth, grown);
      entries := [entry] + tail;
      MoreEntries(entry, tail, MAX_DEPTH + 1 - depth);
      Appended(done, child.value, MeaningOfEntries(tail));
      assert next == COMMA + (EntriesSource(tail) + (BRACKET + p.rest));
    }
    EntriesUnfold(entries, BRACKET + p.rest);
  }

  lemma JoinedSpaces(a: seq<byte>, b: seq<byte>)
    requires Spaces(a) && Spaces(b)
    ensures Spaces(a + b)
  {
  }

  lemma OneEntry(entry: Entry, levels: nat)
    requires FormedEntry(entry, levels)
    ensures FormedEntries([entry], levels) && MeaningOfEntries([entry]) == [Meaning(entry.doc)]
  {
  }

  lemma MoreEntries(entry: Entry, tail: seq<Entry>, levels: nat)
    requires FormedEntry(entry, levels) && FormedEntries(tail, levels)
    ensures FormedEntries([entry] + tail, levels)
    ensures MeaningOfEntries([entry] + tail) == [Meaning(entry.doc)] + MeaningOfEntries(tail)
  {
    assert ([entry] + tail)[1..] == tail;
  }

  lemma {:induction false} ReadIsBraces(t: seq<byte>, depth: nat) returns (doc: Doc)
    requires ReadValue(t, depth).Parsed? && SkipSpace(t) == t != [] && t[0] == 0x7b
    ensures Formed(doc, MAX_DEPTH + 1 - depth)
    ensures var p := ReadValue(t, depth); Meaning(doc) == p.value && t == Source(doc) + p.rest
    decreases |t|, 2
  {
    hide ReadElements, ReadMembers, SkipSpace, FormedFields, FieldsSource, MeaningOfFields, Spaces, DistinctKeys;
    var p := ReadValue(t, depth);
    var u := SkipSpace(t[1..]);
    NoEntries();
    if u != [] && u[0] == 0x7d {
      var gap := SpaceSplits(t[1..]);
      doc := Braces(gap, []);
      assert u == BRACE + p.rest;
      assert t == Source(doc) + p.rest;
    } else {
      var fields := ReadIsFields(t[1..], depth + 1, []);
      doc := Braces([], fields);
      NoSpaces();
      assert [] + MeaningOfFields(fields) == MeaningOfFields(fields);
      assert t == ['{' as int] + t[1..];
      assert t == Source(doc) + p.rest;
    }
  }

  /** The members of an object up to its closing brace. */
  lemma {:induction false} ReadIsFields(t: seq<byte>, depth: nat, done: seq<Member>) returns (fields: seq<Field>)
    requires ReadMembers(SkipSpace(t), depth, done).Parsed? && 1 <= depth && DistinctKeys(done)
    ensures fields != [] && |done| + |fields| <= MAX_MEMBERS && DistinctKeys(done + MeaningOfFields(fields))
    ensures depth <= MAX_DEPTH && FormedFields(fields, MAX_DEPTH + 1 - depth)
    ensures var p := ReadMembers(SkipSpace(t), depth, done);
            p.value == Object(done + MeaningOfFields(fields)) && t == FieldsSource(fields) + (BRACE + p.rest)
    decreases |t|, 4
  {
    hide ReadMember, SkipSpace, Formed, FormedField, FormedFields, Source, FieldsSource, Meaning, MeaningOfField,
         MeaningOfFields, Spaces, DistinctKeys, Literal;
    var s := SkipSpace(t);
    var front := SpaceSplits(t);
    var p := ReadMembers(s, depth, done);
    var member := ReadMember(s, depth);
    var key, colon, before, doc := ReadIsMember(s, depth);
    var after := SpaceSplits(member.rest);
    var next := SkipSpace(member.rest);
    var field := Field(front, key, colon, Entry(before, doc, after));
    var grown := done + [member.value];
    GrownKeys(done, member.value);
    FieldIsFormed(field, MAX_DEPTH + 1 - depth);
    OneField(field, MAX_DEPTH + 1 - depth);
    if next[0] == 0x7d {
      fields := [field];
      assert next == BRACE + p.rest;
    } else {
      var tail := ReadIsFields(next[1..], depth, grown);
      fields := [field] + tail;
      MoreFields(field, tail, MAX_DEPTH + 1 - depth);
      Appended(done, member.value, MeaningOfFields(tail));
      assert next == COMMA + (FieldsSource(tail) + (BRACE + p.rest));
    }
    assert FieldsAfter(fields, BRACE + p.rest) == next;
    FieldsUnfold(fields, BRACE + p.rest);
    MemberEnds(key, colon, before, doc, after, next);
  }

  lemma MemberEnds(key: seq<Item>, colon: seq<byte>, before: seq<byte>, doc: Doc, after: seq<byte>, next: seq<byte>)
    ensures Literal(key) + (colon + (COLON + (before + Source(doc)))) + (after + next) ==
            Literal(key) + (colon + (COLON + (before + (Source(doc) + (after + next)))))
  {
    hide Source, Literal;
  }

  lemma GrownKeys(done: seq<Member>, m: Member)
    requires DistinctKeys(done) && !HasKey(done, m.key)
    ensures DistinctKeys(done + [m])
  {
  }

  lemma ReadIsMember(s: seq<byte>, depth: nat)
    returns (key: seq<Item>, colon: seq<byte>, before: seq<byte>, doc: Doc)
    requires ReadMember(s, depth).Parsed?
    ensures depth <= MAX_DEPTH && Readable(key) && Spaces(colon) && Spaces(before)
    ensures Formed(doc, MAX_DEPTH + 1 - depth)
    ensures var m := ReadMember(s, depth);
            m.value == Member(TextOf(key), Meaning(doc)) &&
            s == Literal(key) + (colon + (COLON + (before + Source(doc)))) + m.rest
    decreases |s|, 3
  {
    hide ReadString, ReadValue, SkipSpace, Formed, Source, Meaning, Spaces, Readable, Literal, TextOf;
    var text := ReadIsText(s);
    key := text.items;
    var p := ReadString(s);
    colon := SpaceSplits(p.rest);
    var c := SkipSpace(p.rest);
    before, doc := ReadIsDoc(c[1..], depth);
    assert c == COLON + c[1..];
    MemberEnds(key, colon, before, doc, [], ReadMember(s, depth).rest);
  }

  lemma FieldIsFormed(field: Field, levels: nat)
    requires Spaces(field.front) && Readable(field.key) && Spaces(field.colon)
    requires Spaces(field.entry.before) && Formed(field.entry.doc, levels) && Spaces(field.entry.after)
    ensures FormedField(field, levels)
    ensures MeaningOfField(field) == Member(TextOf(field.key), Meaning(field.entry.doc))
  {
  }

  lemma OneField(field: Field, levels: nat)
    requires FormedField(field, levels)
    ensures FormedFields([field], levels) && MeaningOfFields([field]) == [MeaningOfField(field)]
  {
    hide MeaningOfField, FormedField;
  }

  lemma MoreFields(field: Field, tail: seq<Field>, levels: nat)
    requires FormedField(field, levels) && FormedFields(tail, levels)
    ensures FormedFields([field] + tail, levels)
    ensures MeaningOfFields([field] + tail) == [MeaningOfField(field)] + MeaningOfFields(tail)
  {
    hide MeaningOfField, FormedField;
    assert ([field] + tail)[1..] == tail;
  }

  /** The message is a document for the value, between white space. */
  ghost predicate Spells(input: seq<byte>, v: Json) {
    exists before, doc, after ::
      && Spaces(before) && Formed(doc, MAX_DEPTH + 1) && Spaces(after) && Meaning(doc) == v
      && input == before + (Source(doc) + after)
  }

  /** A message is read as a value exactly when it is at most 128 KiB long and spells that value. */
  lemma ParsesIff(input: seq<byte>, v: Json)
    ensures Parse(input) == Some(v) <==> |input| <= MAX_JSON && Spells(input, v)
  {
    hide ReadValue, Source, Formed, Meaning, SkipSpace, Spaces;
    if Parse(input) == Some(v) {
      var before, doc := ReadIsDoc(input, 0);
      var rest := ReadValue(input, 0).rest;
      var after := SpaceSplits(rest);
      assert rest == after;
    }
    if before, doc, after :| Spaces(before) && Formed(doc, MAX_DEPTH + 1) && Spaces(after) && Meaning(doc) == v &&
                             input == before + (Source(doc) + after) {
      SpacesEnd(after);
      DocReads(doc, after, 0);
      ValueIgnoresSpace(before, Source(doc) + after, 0);
    }
  }

  lemma SpacesEnd(after: seq<byte>)
    requires Spaces(after)
    ensures EndsNumber(after) && SkipSpace(after) == []
  {
    SpacesSkipped(after, []);
    assert after + [] == after;
  }

  // ---- a printer ----

  function Print(v: Json): seq<byte> {
    match v
    case Null => NULL_TEXT
    case Boolean(value) => if value then TRUE_TEXT else FALSE_TEXT
    case Number(text) => text
    case String(text) => Quoted(text)
    case Object(members) => ['{' as int] + (PrintMembers(members) + ['}' as int])
    case Array(elements) => ['[' as int] + (PrintElements(elements) + [']' as int])
  }

  function PrintMembers(members: seq<Member>): seq<byte> {
    if members == [] then []
    else
      Quoted(members[0].key) + (COLON + Print(members[0].value)) +
      if |members| == 1 then [] else COMMA + PrintMembers(members[1..])
  }

  function PrintElements(elements: seq<Json>): seq<byte> {
    if elements == [] then []
    else Print(elements[0]) + if |elements| == 1 then [] else COMMA + PrintElements(elements[1..])
  }

  ghost predicate IsNumeral(text: seq<byte>) {
    exists n: Numeral :: n.Grammatical() && n.Source() == text
  }

  /** A value within the reader's limits whose numbers are numerals. */
  ghost predicate Writable(v: Json, levels: nat) {
    levels > 0 &&
    match v
    case Null => true
    case Boolean(_) => true
    case Number(text) => IsNumeral(text)
    case String(text) => TextOk(text)
    case Object(members) =>
      |members| <= MAX_MEMBERS && DistinctKeys(members) && WritableMembers(members, levels - 1)
    case Array(elements) => |elements| <= MAX_MEMBERS && WritableElements(elements, levels - 1)
  }

  ghost predicate WritableMembers(members: seq<Member>, levels: nat) {
    members == [] ||
    (TextOk(members[0].key) && Writable(members[0].value, levels) && WritableMembers(members[1..], levels))
  }

  ghost predicate WritableElements(elements: seq<Json>, levels: nat) {
    elements == [] || (Writable(elements[0], levels) && WritableElements(elements[1..], levels))
  }

  function ItemOf(b: byte): Item {
    if b == 0x22 || b == 0x5c then Simple(b)
    else if b == 8 then Simple(0x62)
    else if b == 12 then Simple(0x66)
    else if b == 10 then Simple(0x6e)
    else if b == 13 then Simple(0x72)
    else if b == 9 then Simple(0x74)
    else if b < 0x20 then Unicode([0x30, 0x30, HexByte(b / 16), HexByte(b % 16)])
    else Raw(b)
  }

  lemma ItemOfByte(b: byte)
    ensures var i := ItemOf(b);
            i.Lexical() && !i.IsSurrogate() && i.Source() == EscapeByte(b) && i.Text() == [b]
  {
    if ItemOf(b).Unicode? {
      HexDigitOfByte(b / 16);
      HexDigitOfByte(b % 16);
      ZeroDigit();
    }
  }

  lemma {:induction false} EscapedItems(s: seq<byte>) returns (items: seq<Item>)
    ensures Lexical(items) && SurrogateFree(items) && Sources(items) == Escape(s) && Texts(items) == s
  {
    hide ItemOf, Item.Lexical, Item.Source, Item.Text, Item.IsSurrogate, EscapeByte;
    if s == [] {
      items := [];
    } else {
      var tail := EscapedItems(s[1..]);
      ItemOfByte(s[0]);
      items := [ItemOf(s[0])] + tail;
      assert items[1..] == tail;
    }
  }

  lemma QuotedItems(s: seq<byte>) returns (items: seq<Item>)
    requires TextOk(s)
    ensures Readable(items) && TextOf(items) == s && Literal(items) == Quoted(s)
  {
    hide ValidUtf8, Sources, Texts, SurrogateFree, Lexical;
    items := EscapedItems(s);
    TextValidIff([], items);
    assert [] + Texts(items) == s && [] + Sources(items) == Sources(items);
    assert Literal(items) == Quoted(s);
  }

  /** What the printer writes is a document for the value. */
  lemma {:induction false} PrintIsDoc(v: Json, levels: nat) returns (doc: Doc)
    requires Writable(v, levels)
    ensures Formed(doc, levels) && Source(doc) == Print(v) && Meaning(doc) == v
    decreases v, 1
  {
    hide Quoted, TextOk, Readable, Literal, TextOf, Numeral.Source, Numeral.Grammatical;
    match v {
      case Null => doc := Nil;
      case Boolean(value) => doc := Truth(value);
      case Number(text) =>
        var n: Numeral :| n.Grammatical() && n.Source() == text;
        doc := Numeric(n);
      case String(text) =>
        var items := QuotedItems(text);
        doc := Text(items);
      case Object(members) =>
        NoSpaces();
        if members == [] {
          doc := Braces([], []);
        } else {
          var fields := MembersAreFields(members, levels - 1);
          doc := Braces([], fields);
        }
      case Array(elements) =>
        NoSpaces();
        if elements == [] {
          doc := Brackets([], []);
        } else {
          var entries := ElementsAreEntries(elements, levels - 1);
          doc := Brackets([], entries);
        }
    }
  }

  lemma {:induction false} ElementsAreEntries(elements: seq<Json>, levels: nat) returns (entries: seq<Entry>)
    requires elements != [] && WritableElements(elements, levels)
    ensures |entries| == |elements| && FormedEntries(entries, levels)
    ensures EntriesSource(entries) == PrintElements(elements) && MeaningOfEntries(entries) == elements
    decreases elements, 0
  {
    hide Writable, Formed, Source, Print, Meaning, Spaces;
    var doc := PrintIsDoc(elements[0], levels);
    var entry := Entry([], doc, []);
    NoSpaces();
    assert EntrySource(entry) == Source(doc);
    if |elements| == 1 {
      entries := [entry];
      OneEntry(entry, levels);
      assert elements == [elements[0]];
    } else {
      var tail := ElementsAreEntries(elements[1..], levels);
      entries := [entry] + tail;
      MoreEntries(entry, tail, levels);
      assert entries[1..] == tail;
      assert elements == [elements[0]] + elements[1..];
    }
  }

  lemma {:induction false} MembersAreFields(members: seq<Member>, levels: nat) returns (fields: seq<Field>)
    requires members != [] && WritableMembers(members, levels)
    ensures |fields| == |members| && FormedFields(fields, levels)
    ensures FieldsSource(fields) == PrintMembers(members) && MeaningOfFields(fields) == members
    decreases members, 0
  {
    hide Writable, Formed, FormedField, FormedFields, Source, Print, Meaning, MeaningOfField, Spaces, TextOk, Readable,
         Literal, Quoted, TextOf;
    var m := members[0];
    var doc := PrintIsDoc(m.value, levels);
    var key := QuotedItems(m.key);
    var field := Field([], key, [], Entry([], doc, []));
    NoSpaces();
    FieldIsFormed(field, levels);
    assert FieldSource(field) == Quoted(m.key) + (COLON + Print(m.value));
    OneField(field, levels);
    if |members| == 1 {
      fields := [field];
      assert members == [m];
    } else {
      var tail := MembersAreFields(members[1..], levels);
      fields := [field] + tail;
      MoreFields(field, tail, levels);
      assert fields[1..] == tail;
      assert members == [m] + members[1..];
    }
  }

  /** The reader reads back every value within its limits, whatever white space surrounds what was printed. */
  lemma PrintRoundTrip(v: Json, before: seq<byte>, after: seq<byte>)
    requires Writable(v, MAX_DEPTH + 1) && Spaces(before) && Spaces(after)
    requires |before + (Print(v) + after)| <= MAX_JSON
    ensures Parse(before + (Print(v) + after)) == Some(v)
  {
    hide Print, Writable, Formed, Source, Meaning, Parse, Spaces;
    var doc := PrintIsDoc(v, MAX_DEPTH + 1);
    ParsesIff(before + (Print(v) + after), v);
  }

  // ---- printing an accepted value ----

  lemma {:induction false} EscapeConcat(a: seq<byte>, b: seq<byte>)
    ensures Escape(a + b) == Escape(a) + Escape(b)
  {
    hide EscapeByte;
    if a == [] {
      assert a + b == b;
    } else {
      assert (a + b)[1..] == a[1..] + b;
      EscapeConcat(a[1..], b);
    }
  }

  lemma ItemShortens(i: Item)
    requires i.Lexical()
    ensures |Escape(i.Text())| <= |i.Source()|
  {
    hide HexValue, HexByte;
    var t := i.Text();
    assert |t| == 1 ==> Escape(t) == EscapeByte(t[0]) + Escape([]);
    if |t| > 1 {
      HighBytes(t);
    }
  }

  lemma {:induction false} HighBytes(t: seq<byte>)
    requires forall i :: 0 <= i < |t| ==> t[i] >= 0x80
    ensures Escape(t) == t
  {
    if t != [] {
      HighBytes(t[1..]);
      assert t == [t[0]] + t[1..];
    }
  }

  lemma {:induction false} ItemsShorten(items: seq<Item>)
    requires Lexical(items)
    ensures |Escape(Texts(items))| <= |Sources(items)|
  {
    hide Item.Lexical, Item.Source, Item.Text;
    if items != [] {
      ItemsShorten(items[1..]);
      ItemShortens(items[0]);
      EscapeConcat(items[0].Text(), Texts(items[1..]));
    }
  }

  lemma LiteralShortens(items: seq<Item>)
    requires Readable(items)
    ensures TextOk(TextOf(items)) && |Quoted(TextOf(items))| <= |Literal(items)|
  {
    hide Lexical, Texts, Sources, SurrogateFree, ValidUtf8;
    ItemsShorten(items);
    TextValidIff([], items);
    assert [] + Texts(items) == Texts(items) && [] + Sources(items) == Sources(items);
  }

  /** Printing what a document stands for never makes it longer. */
  lemma {:induction false} DocShortens(doc: Doc, levels: nat)
    requires Formed(doc, levels)
    ensures Writable(Meaning(doc), levels) && |Print(Meaning(doc))| <= |Source(doc)|
    decreases doc, 3
  {
    hide Readable, TextOk, Quoted, Literal, TextOf, Numeral.Source, Numeral.Grammatical, Spaces, DistinctKeys;
    match doc {
      case Nil =>
      case Truth(_) =>
      case Numeric(number) =>
      case Text(items) => LiteralShortens(items);
      case Braces(gap, fields) => FieldsShorten(fields, levels - 1);
      case Brackets(gap, entries) => EntriesShorten(entries, levels - 1);
    }
  }

  lemma {:induction false} EntriesShorten(entries: seq<Entry>, levels: nat)
    requires FormedEntries(entries, levels)
    ensures var elements := MeaningOfEntries(entries);
            WritableElements(elements, levels) &&
            |PrintElements(elements)| <= if entries == [] then 0 else |EntriesSource(entries)|
    decreases entries, 2
  {
    hide Formed, Writable, Source, Print, Meaning, Spaces;
    if entries != [] {
      EntriesFormed(entries, levels);
      DocShortens(entries[0].doc, levels);
      EntriesShorten(entries[1..], levels);
      var elements := MeaningOfEntries(entries);
      assert elements[1..] == MeaningOfEntries(entries[1..]);
    }
  }

  lemma {:induction false} FieldsShorten(fields: seq<Field>, levels: nat)
    requires FormedFields(fields, levels)
    ensures var members := MeaningOfFields(fields);
            WritableMembers(members, levels) &&
            |PrintMembers(members)| <= if fields == [] then 0 else |FieldsSource(fields)|
    decreases fields, 2
  {
    hide Formed, Writable, Source, Print, Meaning, Spaces, Readable, TextOk, TextOf, Quoted, Literal;
    if fields != [] {
      FieldsFormed(fields, levels);
      assert Readable(fields[0].key) by { KeyReadable(fields[0], levels); }
      assert FieldsSource(fields) == FieldSource(fields[0]) + if |fields| == 1 then [] else
                                       COMMA + FieldsSource(fields[1..]);
      FieldLength(fields[0]);
      DocShortens(fields[0].entry.doc, levels);
      LiteralShortens(fields[0].key);
      FieldsShorten(fields[1..], levels);
      var members := MeaningOfFields(fields);
      assert members[1..] == MeaningOfFields(fields[1..]);
    }
  }

  lemma KeyReadable(field: Field, levels: nat)
    requires FormedField(field, levels)
    ensures Readable(field.key)
  {
  }

  lemma FieldLength(field: Field)
    ensures |FieldSource(field)| >= |Literal(field.key)| + 1 + |Source(field.entry.doc)|
  {
    hide Source, Literal;
  }

  /** Printing an accepted message and reading it again gives the same value, from a text that is no longer. */
  lemma AcceptedPrints(input: seq<byte>)
    requires Parse(input).Some?
    ensures var v := Parse(input).value;
            Writable(v, MAX_DEPTH + 1) && |Print(v)| <= |input| && Parse(Print(v)) == Some(v)
  {
    hide Print, Writable, Formed, Source, Meaning, Parse, Spaces;
    var v := Parse(input).value;
    ParsesIff(input, v);
    var before, doc, after :| Spaces(before) && Formed(doc, MAX_DEPTH + 1) && Spaces(after) && Meaning(doc) == v &&
                              input == before + (Source(doc) + after);
    DocShortens(doc, MAX_DEPTH + 1);
    NoSpaces();
    assert [] + (Print(v) + []) == Print(v);
    PrintRoundTrip(v, [], []);
  }

  // ---- what an escape stands for ----

  const LETTERS: seq<byte> :=
    ['"' as int, '\\' as int, '/' as int, 'b' as int, 'f' as int, 'n' as int, 'r' as int, 't' as int]
  const LETTER_MEANINGS: seq<byte> := [0x22, 0x5c, 0x2f, 8, 12, 10, 13, 9]

  /** The short escapes of section 7 of RFC 8259, and no others. */
  lemma ShortEscapes(letter: byte, rest: seq<byte>)
    requires letter != 'u' as int
    ensures forall k :: 0 <= k < 8 && letter == LETTERS[k] ==>
              ReadEscape([letter] + rest) == Parsed([LETTER_MEANINGS[k]], rest)
    ensures letter !in LETTERS ==> ReadEscape([letter] + rest).Malformed?
  {
    hide HexValue, Utf8;
    assert ([letter] + rest)[1..] == rest;
    if letter !in LETTERS {
      assert forall k :: 0 <= k < 8 ==> LETTERS[k] in LETTERS;
    }
  }

  function HexLetter(d: nat, upper: bool): byte
    requires d < 16
  {
    if d < 10 then '0' as int + d else (if upper then 'A' as int else 'a' as int) + d - 10
  }

  function HexSpelling(c: nat, upper: bool): seq<byte>
    requires c <= 0xffff
  {
    [HexLetter(c / 0x1000, upper), HexLetter(c / 0x100 % 0x10, upper), HexLetter(c / 0x10 % 0x10, upper),
     HexLetter(c % 0x10, upper)]
  }

  /** The code point of an encoded character of at most three bytes (section 3 of RFC 3629). */
  function CodePoint(s: seq<byte>): int
    requires 1 <= |s| <= 3
  {
    var a: int := s[0];
    if |s| == 1 then a
    else
      var b: int := s[1];
      if |s| == 2 then 0x40 * (a - 0xc0) + (b - 0x80)
      else
        var c: int := s[2];
        0x1000 * (a - 0xe0) + 0x40 * (b - 0x80) + (c - 0x80)
  }

  lemma HexLetterReads(d: nat, upper: bool)
    requires d < 16
    ensures HexDigit(HexLetter(d, upper)) == Some(d)
  {
  }

  lemma HexDigitsAddUp(c: nat)
    requires c <= 0xffff
    ensures 0x1000 * (c / 0x1000) + 0x100 * (c / 0x100 % 0x10) + 0x10 * (c / 0x10 % 0x10) + c % 0x10 == c
    ensures c / 0x1000 < 0x10
  {
  }

  lemma Utf8OfCode(c: nat)
    requires c <= 0xffff
    ensures CodePoint(Utf8(c)) == c
  {
  }

  /** Four hexadecimal digits of either case stand for the character with that number. */
  lemma UnicodeEscapes(c: nat, upper: bool, rest: seq<byte>)
    requires c <= 0xffff
    ensures var p := ReadEscape(['u' as int] + (HexSpelling(c, upper) + rest));
            p.Parsed? && p.rest == rest && 1 <= |p.value| <= 3 && CodePoint(p.value) == c
  {
    hide HexLetter, HexDigit, CodePoint, ReadEscape, Utf8;
    HexDigitsAddUp(c);
    HexLetterReads(c / 0x1000, upper);
    HexLetterReads(c / 0x100 % 0x10, upper);
    HexLetterReads(c / 0x10 % 0x10, upper);
    HexLetterReads(c % 0x10, upper);
    assert HexValue(HexSpelling(c, upper)) == Some(c);
    UnicodeReads(HexSpelling(c, upper), rest);
    Utf8OfCode(c);
  }
}
