/** Audit delivery: the bounded spool, the chunk codec and the upload rate limiter. */
module Audit {
  import opened Bytes
  import opened Wire
  import Sanitizer

  const MAX_FIELD: nat := 128
  const MAX_DETAIL: nat := 256
  const MAX_EVENTS: nat := 64
  const MAX_CHUNK: nat := 32 * 1024

  type Category = c: nat | 1 <= c <= 7 witness 1
  type Severity = s: nat | 1 <= s <= 3 witness 1

  datatype Event = Event(
    category: Category, severity: Severity, component: seq<byte>, action: seq<byte>, result: seq<byte>,
    operationId: nat, clientId: nat, detail: seq<byte>)

  datatype Record = Record(sequence: nat, timestamp: nat, event: Event)

  /** A sanitizer only rewrites the texts and bounds them. It need not leave alone what it has sanitized before. */
  ghost predicate Sanitizes(clean: Event -> Event) {
    forall e :: Bounded(clean(e)) &&
                clean(e).(component := e.component, action := e.action, result := e.result, detail := e.detail) == e
  }

  predicate Bounded(e: Event) {
    |e.component| <= MAX_FIELD && |e.action| <= MAX_FIELD && |e.result| <= MAX_FIELD && |e.detail| <= MAX_DETAIL
  }

  // ---- spool ----

  /** `acked` counts the records acknowledgements have removed. */
  datatype Spool = Spool(capacity: nat, records: seq<Record>, next: nat, dropped: nat, acked: nat)

  function Emit(clean: Event -> Event, s: Spool, e: Event, now: nat): Spool
    requires s.capacity > 0
  {
    var excess := if |s.records| >= s.capacity then |s.records| - s.capacity + 1 else 0;
    s.(records := s.records[excess..] + [Record(s.next, now, clean(e))], next := s.next + 1,
       dropped := s.dropped + excess)
  }

  function Covered(records: seq<Record>, last: nat): (n: nat)
    ensures n <= |records| && forall i :: 0 <= i < n ==> records[i].sequence <= last
    ensures n < |records| ==> records[n].sequence > last
  {
    if records != [] && records[0].sequence <= last then 1 + Covered(records[1..], last) else 0
  }

  function Acknowledge(s: Spool, last: nat): Spool {
    var n := Covered(s.records, last);
    s.(records := s.records[n..], acked := s.acked + n)
  }

  function Peek(s: Spool, maximum: nat): seq<Record> {
    s.records[..Min(maximum, |s.records|)]
  }

  datatype SpoolCall = DoEmit(event: Event, now: nat) | DoAcknowledge(last: nat)

  function Step(clean: Event -> Event, s: Spool, c: SpoolCall): Spool
    requires s.capacity > 0
  {
    match c
    case DoEmit(e, now) => Emit(clean, s, e, now)
    case DoAcknowledge(last) => Acknowledge(s, last)
  }

  function Run(clean: Event -> Event, s: Spool, calls: seq<SpoolCall>): Spool
    requires s.capacity > 0
    decreases |calls|
  {
    if calls == [] then s else Run(clean, Step(clean, s, calls[0]), calls[1..])
  }

  function Emitted(calls: seq<SpoolCall>): nat
    decreases |calls|
  {
    if calls == [] then 0 else (if calls[0].DoEmit? then 1 else 0) + Emitted(calls[1..])
  }

  /** The spool holds exactly the newest sequences: what is missing at the front was dropped or acknowledged. */
  predicate SpoolOk(s: Spool) {
    && s.capacity > 0 && |s.records| <= s.capacity
    && s.next == 1 + s.dropped + s.acked + |s.records|
    && forall i :: 0 <= i < |s.records| ==> s.records[i].sequence == 1 + s.dropped + s.acked + i
  }

  /** In every run every emitted record is either dropped, acknowledged or still spooled, in contiguous order. */
  lemma {:induction false} SpoolConserves(clean: Event -> Event, s: Spool, calls: seq<SpoolCall>)
    requires SpoolOk(s)
    ensures var t := Run(clean, s, calls);
            && SpoolOk(t)
            && t.next == s.next + Emitted(calls)
            && t.dropped + t.acked + |t.records| == s.dropped + s.acked + |s.records| + Emitted(calls)
    decreases |calls|
  {
    if calls != [] {
      SpoolConserves(clean, Step(clean, s, calls[0]), calls[1..]);
    }
  }

  /** The events emitted by some calls, with their times. */
  function Emissions(calls: seq<SpoolCall>): seq<SpoolCall> {
    if calls == [] then []
    else Emissions(calls[..|calls| - 1]) + if calls[|calls| - 1].DoEmit? then [calls[|calls| - 1]] else []
  }

  lemma {:induction false} RunThen(clean: Event -> Event, s: Spool, calls: seq<SpoolCall>, c: SpoolCall)
    requires s.capacity > 0
    ensures Run(clean, s, calls).capacity == s.capacity
    ensures Run(clean, s, calls + [c]) == Step(clean, Run(clean, s, calls), c)
    decreases |calls|
  {
    hide Emit, Acknowledge;
    if calls == [] {
      assert calls + [c] == [c] && [c][1..] == [];
    } else {
      assert (calls + [c])[1..] == calls[1..] + [c];
      assert Step(clean, s, calls[0]).capacity == s.capacity by { StepKeepsCapacity(clean, s, calls[0]); }
      RunThen(clean, Step(clean, s, calls[0]), calls[1..], c);
    }
  }

  lemma StepKeepsCapacity(clean: Event -> Event, s: Spool, c: SpoolCall)
    requires s.capacity > 0
    ensures Step(clean, s, c).capacity == s.capacity
  {
  }

  /** Every spooled record is the emission that its sequence counts, with its own time and its sanitized event. */
  ghost predicate HoldsEmissions(clean: Event -> Event, s: Spool, emissions: seq<SpoolCall>) {
    && s.next == 1 + |emissions|
    && forall i :: 0 <= i < |s.records| ==>
         var r := s.records[i];
         1 <= r.sequence <= |emissions| && emissions[r.sequence - 1].DoEmit? &&
         r.timestamp == emissions[r.sequence - 1].now && r.event == clean(emissions[r.sequence - 1].event)
  }

  lemma EmitHolds(clean: Event -> Event, s: Spool, emissions: seq<SpoolCall>, e: Event, now: nat)
    requires s.capacity > 0 && HoldsEmissions(clean, s, emissions)
    ensures HoldsEmissions(clean, Emit(clean, s, e, now), emissions + [DoEmit(e, now)])
  {
    var grown := emissions + [DoEmit(e, now)];
    assert forall i :: 0 <= i < |emissions| ==> grown[i] == emissions[i];
  }

  /** In every run the spool holds what was emitted, under the sequences of the emissions. */
  lemma {:induction false} SpoolHoldsEmissions(clean: Event -> Event, capacity: nat, calls: seq<SpoolCall>)
    requires capacity > 0
    ensures HoldsEmissions(clean, Run(clean, NewSpool(capacity), calls), Emissions(calls))
    decreases |calls|
  {
    hide Emit, Acknowledge, HoldsEmissions, Run;
    if calls == [] {
      NothingEmitted(clean, capacity);
    } else {
      var c, before := calls[|calls| - 1], calls[..|calls| - 1];
      assert calls == before + [c];
      SpoolHoldsEmissions(clean, capacity, before);
      RunThen(clean, NewSpool(capacity), before, c);
      var s := Run(clean, NewSpool(capacity), before);
      if c.DoEmit? {
        EmitHolds(clean, s, Emissions(before), c.event, c.now);
      } else {
        AcknowledgeHolds(clean, s, Emissions(before), c.last);
        assert Emissions(before) + [] == Emissions(before);
      }
    }
  }

  lemma NothingEmitted(clean: Event -> Event, capacity: nat)
    requires capacity > 0
    ensures HoldsEmissions(clean, Run(clean, NewSpool(capacity), []), [])
  {
  }

  lemma AcknowledgeHolds(clean: Event -> Event, s: Spool, emissions: seq<SpoolCall>, last: nat)
    requires HoldsEmissions(clean, s, emissions)
    ensures HoldsEmissions(clean, Acknowledge(s, last), emissions)
  {
  }

  /** An emission costs no record unless the spool is full, and then only the oldest one. */
  lemma EmitCostsOldestOnly(clean: Event -> Event, s: Spool, e: Event, now: nat)
    requires SpoolOk(s)
    ensures var t := Emit(clean, s, e, now);
            var full := |s.records| == s.capacity;
            && t.dropped == s.dropped + (if full then 1 else 0)
            && t.records == (if full then s.records[1..] else s.records) + [Record(s.next, now, clean(e))]
  {
  }

  /** An acknowledgement removes exactly the spooled sequences up to its own. */
  lemma AcknowledgeRemovesExactly(s: Spool, last: nat)
    requires SpoolOk(s)
    ensures forall r :: r in s.records && r.sequence > last <==> r in Acknowledge(s, last).records
  {
    var n := Covered(s.records, last);
    forall i | n <= i < |s.records|
      ensures s.records[i] in s.records[n..] && s.records[i].sequence > last
    {
      assert s.records[i] == s.records[n..][i - n];
    }
  }

  // ---- chunk codec ----

  function Field(t: seq<byte>): seq<byte> {
    Le(|t|, 2) + t
  }

  function StampBytes(r: Record): seq<byte> {
    Le(r.sequence, 8) + (Le(r.timestamp, 8) + ([r.event.category as byte] + ([r.event.severity as byte] +
      (Le(r.event.operationId, 8) + Le(r.event.clientId, 8)))))
  }

  function TextBytes(e: Event): seq<byte> {
    Field(e.component) + (Field(e.action) + (Field(e.result) + Field(e.detail)))
  }

  function RecordBytes(r: Record): seq<byte> {
    StampBytes(r) + TextBytes(r.event)
  }

  function Clean(clean: Event -> Event, r: Record): Record {
    r.(event := clean(r.event))
  }

  function BodyBytes(clean: Event -> Event, records: seq<Record>): seq<byte> {
    if records == [] then [] else RecordBytes(Clean(clean, records[0])) + BodyBytes(clean, records[1..])
  }

  /** How many records the encoder takes before the count or the size limit stops it. */
  function Taken(clean: Event -> Event, records: seq<Record>, count: nat, size: nat): (n: nat)
    ensures n <= |records|
    decreases |records|
  {
    if records == [] || count >= MAX_EVENTS then 0
    else
      var bytes := |RecordBytes(Clean(clean, records[0]))|;
      if 3 + size + bytes > MAX_CHUNK then 0 else 1 + Taken(clean, records[1..], count + 1, size + bytes)
  }

  function Fitting(clean: Event -> Event, records: seq<Record>): nat {
    Taken(clean, records, 0, 0)
  }

  function EncodeChunk(clean: Event -> Event, records: seq<Record>): seq<byte> {
    var n := Taken(clean, records, 0, 0);
    [1] + Le(n, 2) + BodyBytes(clean, records[..n])
  }

  predicate Fits(clean: Event -> Event, records: seq<Record>, n: nat)
    requires n <= |records|
  {
    n <= MAX_EVENTS && 3 + |BodyBytes(clean, records[..n])| <= MAX_CHUNK
  }

  lemma BodyPrefix(clean: Event -> Event, records: seq<Record>, n: nat)
    requires 0 < n <= |records|
    ensures BodyBytes(clean, records[..n]) ==
            RecordBytes(Clean(clean, records[0])) + BodyBytes(clean, records[1..][..n - 1])
  {
    assert records[..n][1..] == records[1..][..n - 1];
  }

  lemma {:induction false} TakenIsMaximal(clean: Event -> Event, records: seq<Record>, count: nat, size: nat)
    requires count <= MAX_EVENTS && 3 + size <= MAX_CHUNK
    ensures var n := Taken(clean, records, count, size);
            && count + n <= MAX_EVENTS && 3 + size + |BodyBytes(clean, records[..n])| <= MAX_CHUNK
            && (n < |records| && count + n < MAX_EVENTS ==>
                  3 + size + |BodyBytes(clean, records[..n + 1])| > MAX_CHUNK)
    decreases |records|
  {
    hide RecordBytes;
    if records != [] && count < MAX_EVENTS {
      var bytes := |RecordBytes(Clean(clean, records[0]))|;
      BodyPrefix(clean, records, 1);
      assert records[1..][..0] == [];
      if 3 + size + bytes <= MAX_CHUNK {
        TakenIsMaximal(clean, records[1..], count + 1, size + bytes);
        var n := Taken(clean, records, count, size);
        BodyPrefix(clean, records, n);
        if n < |records| {
          BodyPrefix(clean, records, n + 1);
        }
      }
    }
  }

  lemma {:induction false} BodyGrows(clean: Event -> Event, records: seq<Record>, m: nat, n: nat)
    requires m <= n <= |records|
    ensures |BodyBytes(clean, records[..m])| <= |BodyBytes(clean, records[..n])|
    decreases m
  {
    hide RecordBytes;
    if m > 0 {
      BodyPrefix(clean, records, m);
      BodyPrefix(clean, records, n);
      BodyGrows(clean, records[1..], m - 1, n - 1);
    }
  }

  /** A prefix fits a chunk exactly when it is no longer than the one the encoder takes. */
  lemma FittingIsLongest(clean: Event -> Event, records: seq<Record>, n: nat)
    requires n <= |records|
    ensures Fits(clean, records, n) <==> n <= Fitting(clean, records)
  {
    TakenIsMaximal(clean, records, 0, 0);
    var k := Fitting(clean, records);
    if n <= k {
      BodyGrows(clean, records, n, k);
    } else if k < MAX_EVENTS {
      BodyGrows(clean, records, k + 1, n);
    }
  }

  lemma {:induction false} UniformBody(clean: Event -> Event, records: seq<Record>, size: nat)
    requires forall r :: r in records ==> |RecordBytes(Clean(clean, r))| == size
    ensures |BodyBytes(clean, records)| == size * |records|
  {
    hide RecordBytes;
    if records != [] {
      UniformBody(clean, records[1..], size);
    }
  }

  // ---- how much a peeked chunk can hold ----

  const FULL_RECORD: nat := 682

  /** The largest number of records that fit a chunk whatever they say. */
  const SAFE_EVENTS: nat := 48

  lemma RecordSize(r: Record)
    ensures |RecordBytes(r)| ==
            42 + |r.event.component| + |r.event.action| + |r.event.result| + |r.event.detail|
  {
    hide Le;
  }

  lemma {:induction false} BodyBounded(clean: Event -> Event, records: seq<Record>)
    requires Sanitizes(clean)
    ensures |BodyBytes(clean, records)| <= FULL_RECORD * |records|
  {
    hide RecordBytes, Sanitizes;
    if records != [] {
      RecordBounded(clean, records[0]);
      BodyBounded(clean, records[1..]);
    }
  }

  lemma RecordBounded(clean: Event -> Event, r: Record)
    requires Sanitizes(clean)
    ensures |RecordBytes(Clean(clean, r))| <= FULL_RECORD
  {
    hide RecordBytes;
    assert Bounded(clean(r.event));
    RecordSize(Clean(clean, r));
  }

  /** What the declaration of the peek promises of its result: once encoded, all of it fits one chunk. */
  predicate WithinChunk(clean: Event -> Event, chunk: seq<Record>) {
    3 + |BodyBytes(clean, chunk)| <= MAX_CHUNK
  }

  predicate FullEvent(e: Event) {
    |e.component| == |e.action| == |e.result| == MAX_FIELD && |e.detail| == MAX_DETAIL
  }

  function NewSpool(capacity: nat): Spool {
    Spool(capacity, [], 1, 0, 0)
  }

  function Emits(e: Event, n: nat): (calls: seq<SpoolCall>)
    ensures |calls| == n
    decreases n
  {
    if n == 0 then [] else [DoEmit(e, 0)] + Emits(e, n - 1)
  }

  lemma {:induction false} EmitsFill(clean: Event -> Event, s: Spool, e: Event, n: nat)
    requires s.capacity > 0 && |s.records| + n <= s.capacity
    requires forall r :: r in s.records ==> r.event == clean(e)
    ensures var t := Run(clean, s, Emits(e, n));
            |t.records| == |s.records| + n && forall r :: r in t.records ==> r.event == clean(e)
    decreases n
  {
    if n > 0 {
      assert Emits(e, n)[1..] == Emits(e, n - 1);
      EmitsFill(clean, Emit(clean, s, e, 0), e, n - 1);
    }
  }

  /** 49 records with full fields are too many, in every spool that can hold them and for every longer peek. */
  lemma FullSpoolOverflows(clean: Event -> Event, e: Event, capacity: nat, maximum: nat)
    requires FullEvent(clean(clean(e))) && capacity > SAFE_EVENTS && maximum > SAFE_EVENTS
    ensures !WithinChunk(clean, Peek(Run(clean, NewSpool(capacity), Emits(e, SAFE_EVENTS + 1)), maximum))
  {
    hide Run, RecordBytes, BodyBytes;
    EmitsFill(clean, NewSpool(capacity), e, SAFE_EVENTS + 1);
    var s := Run(clean, NewSpool(capacity), Emits(e, SAFE_EVENTS + 1));
    assert Peek(s, maximum) == s.records;
    forall r | r in s.records
      ensures |RecordBytes(Clean(clean, r))| == FULL_RECORD
    {
      RecordSize(Clean(clean, r));
    }
    UniformBody(clean, s.records, FULL_RECORD);
  }

  /** A short peek fits one chunk, whatever was emitted and acknowledged before. */
  lemma ShortPeekFits(clean: Event -> Event, capacity: nat, calls: seq<SpoolCall>, maximum: nat)
    requires Sanitizes(clean) && capacity > 0 && (maximum <= SAFE_EVENTS || capacity <= SAFE_EVENTS)
    ensures var chunk := Peek(Run(clean, NewSpool(capacity), calls), maximum);
            WithinChunk(clean, chunk) && Fitting(clean, chunk) == |chunk|
  {
    SpoolConserves(clean, NewSpool(capacity), calls);
    RunKeepsCapacity(clean, NewSpool(capacity), calls);
    hide Run, BodyBytes, Taken, Sanitizes;
    var chunk := Peek(Run(clean, NewSpool(capacity), calls), maximum);
    BodyBounded(clean, chunk);
    assert chunk[..|chunk|] == chunk;
    FittingIsLongest(clean, chunk, |chunk|);
  }

  lemma {:induction false} RunKeepsCapacity(clean: Event -> Event, s: Spool, calls: seq<SpoolCall>)
    requires s.capacity > 0
    ensures Run(clean, s, calls).capacity == s.capacity
    decreases |calls|
  {
    if calls != [] {
      RunKeepsCapacity(clean, Step(clean, s, calls[0]), calls[1..]);
    }
  }

  /**
   * A peek is promised to fit one chunk, but bounds the number of records only. The promise is kept in every run, by
   * every sanitizer that can return full fields twice, exactly when no more than 48 records are asked for or ever
   * spooled.
   */
  lemma PeekFitsIff(clean: Event -> Event, capacity: nat, maximum: nat)
    requires Sanitizes(clean) && capacity > 0 && exists e :: FullEvent(clean(clean(e)))
    ensures (forall calls :: WithinChunk(clean, Peek(Run(clean, NewSpool(capacity), calls), maximum))) <==>
            maximum <= SAFE_EVENTS || capacity <= SAFE_EVENTS
  {
    hide Run, Peek, WithinChunk, Sanitizes;
    if maximum <= SAFE_EVENTS || capacity <= SAFE_EVENTS {
      forall calls
        ensures WithinChunk(clean, Peek(Run(clean, NewSpool(capacity), calls), maximum))
      {
        ShortPeekFits(clean, capacity, calls, maximum);
      }
    } else {
      var e :| FullEvent(clean(clean(e)));
      FullSpoolOverflows(clean, e, capacity, maximum);
    }
  }

  // ---- the sanitizer of the service ----

  /** Every text of an event goes through the public sanitizer, within the bound of its field. */
  function PublicEvent(e: Event): Event {
    e.(component := Sanitizer.AuditField(e.component, MAX_FIELD), action := Sanitizer.AuditField(e.action, MAX_FIELD),
       result := Sanitizer.AuditField(e.result, MAX_FIELD), detail := Sanitizer.AuditField(e.detail, MAX_DETAIL))
  }

  lemma PublicSanitizes()
    ensures Sanitizes(PublicEvent)
  {
    hide Sanitizer.AuditField;
    forall e
      ensures Bounded(PublicEvent(e))
    {
      FieldBounded(e.component, MAX_FIELD);
      FieldBounded(e.action, MAX_FIELD);
      FieldBounded(e.result, MAX_FIELD);
      FieldBounded(e.detail, MAX_DETAIL);
    }
  }

  lemma FieldBounded(text: seq<byte>, maximum: nat)
    ensures |Sanitizer.AuditField(text, maximum)| <= maximum
  {
    hide Sanitizer.Sanitize;
    Sanitizer.SanitizedIsPrintable(text, maximum);
  }

  /** As many copies of a short word, with spaces between them, and one more word. */
  function Prose(n: nat, last: seq<byte>): seq<byte> {
    Sanitizer.Spaced(Sanitizer.Copies(Sanitizer.SHORT_WORD, n)) + last
  }

  const LETTER: seq<byte> := [0x61]
  const FULL_FIELD := Prose(42, Sanitizer.SHORT_WORD)
  const FULL_DETAIL := Prose(85, LETTER)
  const FULL_EVENT := Event(7, 1, FULL_FIELD, FULL_FIELD, FULL_FIELD, 0, 0, FULL_DETAIL)

  lemma ProseIsKept(n: nat, last: seq<byte>, maximum: nat)
    requires Sanitizer.PlainWord(last) && 3 * n + |last| == maximum
    ensures |Prose(n, last)| == maximum && Sanitizer.AuditField(Prose(n, last), maximum) == Prose(n, last)
  {
    hide Sanitizer.PlainWord, Sanitizer.Spaced, Sanitizer.Sanitize, Sanitizer.AuditField;
    var words := Sanitizer.Copies(Sanitizer.SHORT_WORD, n);
    Sanitizer.CopiesLength(Sanitizer.SHORT_WORD, n);
    Sanitizer.ShortWordIsPlain();
    Sanitizer.ProseIsKept(words, last, maximum);
    Sanitizer.SecondPassIsIdle(Prose(n, last), maximum);
  }

  /** An event with full fields that the sanitizer leaves alone. */
  lemma FullEventIsKept()
    ensures PublicEvent(FULL_EVENT) == FULL_EVENT && FullEvent(FULL_EVENT)
  {
    hide Prose, Sanitizer.AuditField, Sanitizer.PlainWord;
    Sanitizer.ShortWordIsPlain();
    Sanitizer.LetterIsPlain(0x61);
    ProseIsKept(42, Sanitizer.SHORT_WORD, MAX_FIELD);
    ProseIsKept(85, LETTER, MAX_DETAIL);
  }

  /** For the service's own sanitizer: every peek of every run fits one chunk exactly within 48 records. */
  lemma PublicPeekFitsIff(capacity: nat, maximum: nat)
    requires capacity > 0
    ensures (forall calls ::
               WithinChunk(PublicEvent, Peek(Run(PublicEvent, NewSpool(capacity), calls), maximum))) <==>
            maximum <= SAFE_EVENTS || capacity <= SAFE_EVENTS
  {
    hide Run, Peek, WithinChunk, Sanitizes, PublicEvent, FullEvent;
    PublicSanitizes();
    FullEventIsKept();
    assert FullEvent(PublicEvent(PublicEvent(FULL_EVENT)));
    PeekFitsIff(PublicEvent, capacity, maximum);
  }

  /** A default spool and a default peek that break the promise: 49 events with full fields of harmless prose. */
  lemma DefaultPeekOverflows()
    ensures !WithinChunk(PublicEvent, Peek(Run(PublicEvent, NewSpool(4096), Emits(FULL_EVENT, 49)), MAX_EVENTS))
  {
    hide Run, Peek, WithinChunk, PublicEvent, FullEvent;
    FullEventIsKept();
    FullSpoolOverflows(PublicEvent, FULL_EVENT, 4096, MAX_EVENTS);
  }

  // ---- decoding ----

  function ReadField(s: seq<byte>, maximum: nat): Parsed<seq<byte>> {
    match ReadLe(s, 2)
    case Malformed => Malformed
    case Parsed(n, rest) => if n > maximum then Malformed else ReadBytes(rest, n)
  }

  function ReadEnum(s: seq<byte>, last: nat): Parsed<nat> {
    match ReadLe(s, 1)
    case Malformed => Malformed
    case Parsed(n, rest) => if n < 1 || n > last then Malformed else Parsed(n, rest)
  }

  datatype Stamp = Stamp(
    sequence: nat, timestamp: nat, category: Category, severity: Severity, operationId: nat, clientId: nat)

  function ReadStamp(s: seq<byte>): Parsed<Stamp> {
    var sequence := ReadLe(s, 8);
    if sequence.Malformed? then Malformed else
    var timestamp := ReadLe(sequence.rest, 8);
    if timestamp.Malformed? then Malformed else
    var category := ReadEnum(timestamp.rest, 7);
    if category.Malformed? then Malformed else
    var severity := ReadEnum(category.rest, 3);
    if severity.Malformed? then Malformed else
    var operation := ReadLe(severity.rest, 8);
    if operation.Malformed? then Malformed else
    var client := ReadLe(operation.rest, 8);
    if client.Malformed? then Malformed else
    Parsed(Stamp(sequence.value, timestamp.value, category.value, severity.value, operation.value, client.value),
           client.rest)
  }

  datatype Texts = Texts(component: seq<byte>, action: seq<byte>, result: seq<byte>, detail: seq<byte>)

  function ReadTexts(s: seq<byte>): Parsed<Texts> {
    var component := ReadField(s, MAX_FIELD);
    if component.Malformed? then Malformed else
    var action := ReadField(component.rest, MAX_FIELD);
    if action.Malformed? then Malformed else
    var result := ReadField(action.rest, MAX_FIELD);
    if result.Malformed? then Malformed else
    var detail := ReadField(result.rest, MAX_DETAIL);
    if detail.Malformed? then Malformed else
    Parsed(Texts(component.value, action.value, result.value, detail.value), detail.rest)
  }

  function Assemble(t: Stamp, x: Texts): Record {
    Record(t.sequence, t.timestamp,
           Event(t.category, t.severity, x.component, x.action, x.result, t.operationId, t.clientId, x.detail))
  }

  function ReadRecord(s: seq<byte>): Parsed<Record> {
    var stamp := ReadStamp(s);
    if stamp.Malformed? then Malformed else
    var texts := ReadTexts(stamp.rest);
    if texts.Malformed? then Malformed else Parsed(Assemble(stamp.value, texts.value), texts.rest)
  }

  /** Every record is sanitized again on receipt. */
  function ReadRecords(clean: Event -> Event, s: seq<byte>, count: nat): Option<seq<Record>>
    decreases count
  {
    if count == 0 then (if s == [] then Some([]) else None) else
    var first := ReadRecord(s);
    if first.Malformed? then None else
    var others := ReadRecords(clean, first.rest, count - 1);
    if others.None? then None else Some([Clean(clean, first.value)] + others.value)
  }

  function DecodeChunk(clean: Event -> Event, payload: seq<byte>): Option<seq<Record>> {
    if |payload| > MAX_CHUNK then None else
    var version := ReadLe(payload, 1);
    if version.Malformed? || version.value != 1 then None else
    var count := ReadLe(version.rest, 2);
    if count.Malformed? || count.value > MAX_EVENTS then None else ReadRecords(clean, count.rest, count.value)
  }

  predicate RecordFits(r: Record) {
    r.sequence <= U64_MAX && r.timestamp <= U64_MAX && r.event.operationId <= U64_MAX && r.event.clientId <= U64_MAX
  }

  lemma FieldExact(s: seq<byte>, maximum: nat, t: seq<byte>, rest: seq<byte>)
    requires maximum <= MAX_DETAIL
    ensures ReadField(s, maximum) == Parsed(t, rest) <==> |t| <= maximum && s == Field(t) + rest
  {
    hide Le;
    FourBytes();
    LeExact(s, 2, |t|, t + rest);
    assert Field(t) + rest == Le(|t|, 2) + (t + rest);
    if ReadField(s, maximum) == Parsed(t, rest) {
      var n := ReadLe(s, 2);
      LeExact(s, 2, n.value, n.rest);
      BytesExact(n.rest, n.value, t, rest);
    }
    if |t| <= maximum && s == Field(t) + rest {
      BytesExact(t + rest, |t|, t, rest);
    }
  }

  lemma EnumExact(s: seq<byte>, last: nat, n: nat, rest: seq<byte>)
    requires last < 0x100
    ensures ReadEnum(s, last) == Parsed(n, rest) <==> 1 <= n <= last && s == [n as byte] + rest
  {
    FourBytes();
    LeExact(s, 1, n, rest);
    if n < 0x100 {
      assert Le(n, 1) == [n as byte];
    }
  }

  function StampOf(r: Record): Stamp {
    Stamp(r.sequence, r.timestamp, r.event.category, r.event.severity, r.event.operationId, r.event.clientId)
  }

  lemma StampReads(r: Record, rest: seq<byte>)
    requires RecordFits(r)
    ensures ReadStamp(StampBytes(r) + rest) == Parsed(StampOf(r), rest)
  {
    hide ReadLe, Le, Bound, ReadEnum;
    FourBytes();
    var r5 := Le(r.event.clientId, 8) + rest;
    var r4 := Le(r.event.operationId, 8) + r5;
    var r3 := [r.event.severity as byte] + r4;
    var r2 := [r.event.category as byte] + r3;
    var r1 := Le(r.timestamp, 8) + r2;
    assert StampBytes(r) + rest == Le(r.sequence, 8) + r1;
    LeExact(StampBytes(r) + rest, 8, r.sequence, r1);
    LeExact(r1, 8, r.timestamp, r2);
    EnumExact(r2, 7, r.event.category, r3);
    EnumExact(r3, 3, r.event.severity, r4);
    LeExact(r4, 8, r.event.operationId, r5);
    LeExact(r5, 8, r.event.clientId, rest);
  }

  function TextsOf(e: Event): Texts {
    Texts(e.component, e.action, e.result, e.detail)
  }

  lemma TextsRead(e: Event, rest: seq<byte>)
    requires Bounded(e)
    ensures ReadTexts(TextBytes(e) + rest) == Parsed(TextsOf(e), rest)
  {
    hide ReadField, Field;
    var r3 := Field(e.detail) + rest;
    var r2 := Field(e.result) + r3;
    var r1 := Field(e.action) + r2;
    assert TextBytes(e) + rest == Field(e.component) + r1;
    FieldExact(TextBytes(e) + rest, MAX_FIELD, e.component, r1);
    FieldExact(r1, MAX_FIELD, e.action, r2);
    FieldExact(r2, MAX_FIELD, e.result, r3);
    FieldExact(r3, MAX_DETAIL, e.detail, rest);
  }

  lemma RecordReads(r: Record, rest: seq<byte>)
    requires RecordFits(r) && Bounded(r.event)
    ensures ReadRecord(RecordBytes(r) + rest) == Parsed(r, rest)
  {
    hide StampBytes, TextBytes, ReadStamp, ReadTexts, Bounded;
    var r1 := TextBytes(r.event) + rest;
    assert RecordBytes(r) + rest == StampBytes(r) + r1;
    StampReads(r, r1);
    TextsRead(r.event, rest);
  }

  function CleanAll(clean: Event -> Event, records: seq<Record>): seq<Record> {
    if records == [] then [] else [Clean(clean, records[0])] + CleanAll(clean, records[1..])
  }

  lemma {:induction false} RecordsRead(clean: Event -> Event, records: seq<Record>)
    requires Sanitizes(clean) && forall r :: r in records ==> RecordFits(r)
    ensures ReadRecords(clean, BodyBytes(clean, records), |records|) ==
            Some(CleanAll(clean, CleanAll(clean, records)))
    decreases |records|
  {
    hide RecordBytes, ReadRecord, Bounded;
    if records != [] {
      var r := Clean(clean, records[0]);
      RecordFitsClean(clean, records[0]);
      RecordReads(r, BodyBytes(clean, records[1..]));
      RecordsRead(clean, records[1..]);
    }
  }

  lemma RecordFitsClean(clean: Event -> Event, r: Record)
    requires Sanitizes(clean) && RecordFits(r)
    ensures RecordFits(Clean(clean, r)) && Bounded(Clean(clean, r).event)
  {
    var c := clean(r.event);
    assert c.(component := r.event.component, action := r.event.action, result := r.event.result,
              detail := r.event.detail) == r.event;
  }

  lemma {:induction false} CleanedTwice(clean: Event -> Event, records: seq<Record>)
    ensures |CleanAll(clean, records)| == |records|
    ensures CleanAll(clean, CleanAll(clean, records)) == records <==>
            forall r :: r in records ==> clean(clean(r.event)) == r.event
    decreases |records|
  {
    if records != [] {
      CleanedTwice(clean, records[1..]);
      assert records == [records[0]] + records[1..];
    }
  }

  /**
   * Decoding a chunk gives back the longest prefix of the records that fits one chunk, sanitized by the encoder and
   * again by the decoder. The records come back as they were exactly when sanitizing twice leaves each of them alone.
   */
  lemma ChunkRoundTrip(clean: Event -> Event, records: seq<Record>)
    requires Sanitizes(clean) && forall r :: r in records ==> RecordFits(r)
    ensures |EncodeChunk(clean, records)| <= MAX_CHUNK
    ensures DecodeChunk(clean, EncodeChunk(clean, records)) ==
            Some(CleanAll(clean, CleanAll(clean, records[..Fitting(clean, records)])))
    ensures var prefix := records[..Fitting(clean, records)];
            DecodeChunk(clean, EncodeChunk(clean, records)) == Some(prefix) <==>
            forall r :: r in prefix ==> clean(clean(r.event)) == r.event
  {
    hide ReadLe, Le, BodyBytes, ReadRecords, Sanitizes, CleanAll, RecordFits, Taken;
    FourBytes();
    TakenIsMaximal(clean, records, 0, 0);
    var n := Fitting(clean, records);
    var body := BodyBytes(clean, records[..n]);
    var payload := EncodeChunk(clean, records);
    assert payload == [1] + (Le(n, 2) + body);
    OneByte();
    LeExact(payload, 1, 1, Le(n, 2) + body);
    LeExact(Le(n, 2) + body, 2, n, body);
    RecordsRead(clean, records[..n]);
    CleanedTwice(clean, records[..n]);
  }

  lemma OneByte()
    ensures Le(1, 1) == [1]
  {
  }

  // ---- upload rate limit ----

  /** `last` is 0 until the first refill. */
  datatype Bucket = Bucket(tokens: real, last: nat)

  const EMPTY_BUCKET := Bucket(0.0, 0)
  const BURST: real := 3.0
  const REFILL_MILLISECONDS: real := 5000.0

  function Earned(from: nat, until: nat): real
    requires from <= until
  {
    (until - from) as real / REFILL_MILLISECONDS
  }

  function Refill(b: Bucket, now: nat): Bucket {
    if b.last == 0 then Bucket(BURST, now)
    else if now > b.last then
      var full := b.tokens + Earned(b.last, now);
      Bucket(if full > BURST then BURST else full, now)
    else b
  }

  function Spend(b: Bucket): Bucket {
    if b.tokens >= 1.0 then b.(tokens := b.tokens - 1.0) else b
  }

  datatype Upload = Upload(client: nat, now: nat)

  function BucketOf(buckets: map<nat, Bucket>, client: nat): Bucket {
    if client in buckets then buckets[client] else EMPTY_BUCKET
  }

  predicate Allows(buckets: map<nat, Bucket>, u: Upload) {
    Refill(BucketOf(buckets, u.client), u.now).tokens >= 1.0
  }

  function Serve(buckets: map<nat, Bucket>, u: Upload): map<nat, Bucket> {
    buckets[u.client := Spend(Refill(BucketOf(buckets, u.client), u.now))]
  }

  /** How many of the uploads of one client are admitted. */
  function Admitted(buckets: map<nat, Bucket>, uploads: seq<Upload>, client: nat): nat
    decreases |uploads|
  {
    if uploads == [] then 0
    else
      (if uploads[0].client == client && Allows(buckets, uploads[0]) then 1 else 0) +
      Admitted(Serve(buckets, uploads[0]), uploads[1..], client)
  }

  predicate Steady(uploads: seq<Upload>) {
    forall i, j :: 0 <= i <= j < |uploads| ==> uploads[i].now <= uploads[j].now
  }

  predicate Ordered(uploads: seq<Upload>) {
    (forall i :: 0 <= i < |uploads| ==> uploads[i].now >= 1) && Steady(uploads)
  }

  predicate BucketOk(b: Bucket) {
    0.0 <= b.tokens <= BURST
  }

  lemma EarnedAdds(a: nat, b: nat, c: nat)
    requires a <= b <= c
    ensures Earned(a, b) + Earned(b, c) == Earned(a, c) && Earned(a, b) >= 0.0
  {
  }

  /** What a started bucket admits until some time is bounded by its tokens and what it earns until then. */
  lemma {:induction false} TokensBound(buckets: map<nat, Bucket>, uploads: seq<Upload>, client: nat, until: nat)
    requires Ordered(uploads) && forall u :: u in uploads ==> u.now <= until
    requires var b := BucketOf(buckets, client); BucketOk(b) && 1 <= b.last <= until
    requires forall u :: u in uploads ==> BucketOf(buckets, client).last <= u.now
    ensures Admitted(buckets, uploads, client) as real <=
            BucketOf(buckets, client).tokens + Earned(BucketOf(buckets, client).last, until)
    decreases |uploads|
  {
    var b := BucketOf(buckets, client);
    EarnedAdds(b.last, b.last, until);
    EarnedAdds(b.last, until, until);
    if uploads != [] {
      var u := uploads[0];
      var next := Serve(buckets, u);
      forall v | v in uploads[1..]
        ensures u.now <= v.now <= until
      {
        var i :| 0 <= i < |uploads[1..]| && uploads[1..][i] == v;
        assert v == uploads[i + 1];
      }
      if u.client == client {
        EarnedAdds(b.last, u.now, until);
        assert b.last == u.now ==> Earned(b.last, u.now) == 0.0;
      }
      hide Earned, Ordered;
      assert BucketOf(next, client).last <= until;
      TailOrdered(uploads);
      TokensBound(next, uploads[1..], client, until);
    }
  }

  lemma TailOrdered(uploads: seq<Upload>)
    requires Ordered(uploads) && uploads != []
    ensures Ordered(uploads[1..])
  {
  }

  ghost predicate BucketsOk(buckets: map<nat, Bucket>, now: nat) {
    forall c :: c in buckets ==> BucketOk(buckets[c]) && buckets[c].last <= now
  }

  lemma ServeKeepsBuckets(buckets: map<nat, Bucket>, u: Upload)
    requires BucketsOk(buckets, u.now) && u.now >= 1
    ensures BucketsOk(Serve(buckets, u), u.now) && BucketOf(Serve(buckets, u), u.client).last == u.now
    ensures BucketOf(Serve(buckets, u), u.client).tokens + (if Allows(buckets, u) then 1.0 else 0.0) <= BURST
  {
  }

  /** However uploads interleave, a stretch of T milliseconds admits at most 3 + T/5000 of one client's. */
  lemma {:induction false} RateBound(buckets: map<nat, Bucket>, uploads: seq<Upload>, client: nat)
    requires uploads != [] && Ordered(uploads) && BucketsOk(buckets, uploads[0].now)
    ensures Admitted(buckets, uploads, client) as real <=
            BURST + Earned(uploads[0].now, uploads[|uploads| - 1].now)
    decreases |uploads|
  {
    var u, rest := uploads[0], uploads[1..];
    var until := uploads[|uploads| - 1].now;
    var next := Serve(buckets, u);
    ServeKeepsBuckets(buckets, u);
    TailOrdered(uploads);
    forall v | v in rest
      ensures u.now <= v.now <= until
    {
      var i :| 0 <= i < |rest| && rest[i] == v;
      assert v == uploads[i + 1];
    }
    if u.client == client {
      hide Earned, Ordered;
      TokensBound(next, rest, client, until);
    } else if rest != [] {
      EarnedAdds(u.now, rest[0].now, until);
      RateBound(next, rest, client);
    }
  }

  /** A client that has not been seen may upload three times at once, and no more. */
  lemma NewClientAllowedThree(buckets: map<nat, Bucket>, client: nat, now: nat, n: nat)
    requires client !in buckets && now >= 1
    ensures Admitted(buckets, Repeated(Upload(client, now), n), client) == Min(n, 3)
  {
    var u := Upload(client, now);
    if n > 0 {
      assert Repeated(u, n)[1..] == Repeated(u, n - 1);
      SpentDown(Serve(buckets, u), client, now, n - 1, 2);
    }
  }

  lemma {:induction false} SpentDown(buckets: map<nat, Bucket>, client: nat, now: nat, n: nat, left: nat)
    requires now >= 1 && BucketOf(buckets, client) == Bucket(left as real, now)
    ensures Admitted(buckets, Repeated(Upload(client, now), n), client) == Min(n, left)
    decreases n
  {
    var u := Upload(client, now);
    if n > 0 {
      assert Repeated(u, n)[1..] == Repeated(u, n - 1);
      if left > 0 {
        assert BucketOf(Serve(buckets, u), client) == Bucket((left - 1) as real, now);
      }
      SpentDown(Serve(buckets, u), client, now, n - 1, if left > 0 then left - 1 else 0);
    }
  }

  /** Five seconds without an upload always allow the next one, whatever the bucket held and other clients do. */
  lemma AllowedAfterFiveSeconds(buckets: map<nat, Bucket>, client: nat, now: nat)
    requires client in buckets && BucketOk(buckets[client]) && buckets[client].last + 5000 <= now
    ensures Allows(buckets, Upload(client, now))
  {
  }

  function Repeated(u: Upload, n: nat): (s: seq<Upload>)
    ensures |s| == n
    decreases n
  {
    if n == 0 then [] else [u] + Repeated(u, n - 1)
  }

  /** The clock has to have started: at time 0 a bucket is filled afresh for every upload, and all are admitted. */
  lemma {:induction false} ZeroClockIsUnlimited(buckets: map<nat, Bucket>, client: nat, n: nat)
    requires BucketOf(buckets, client).last == 0
    ensures Admitted(buckets, Repeated(Upload(client, 0), n), client) == n
    decreases n
  {
    if n > 0 {
      var uploads := Repeated(Upload(client, 0), n);
      assert uploads[1..] == Repeated(Upload(client, 0), n - 1);
      ZeroClockIsUnlimited(Serve(buckets, uploads[0]), client, n - 1);
    }
  }

  /** The advertised bound for one client over one stretch of uploads. */
  predicate WithinRate(buckets: map<nat, Bucket>, uploads: seq<Upload>, client: nat)
    requires uploads != [] && Steady(uploads)
  {
    Admitted(buckets, uploads, client) as real <= BURST + Earned(uploads[0].now, uploads[|uploads| - 1].now)
  }

  /** Uploads on a steady clock that starts at a given time, over buckets no later than it. */
  ghost predicate StartsAt(buckets: map<nat, Bucket>, uploads: seq<Upload>, start: nat) {
    uploads != [] && Steady(uploads) && uploads[0].now == start && BucketsOk(buckets, start)
  }

  /** The bound holds of every stretch of uploads that starts at a time exactly when that time is at least 1. */
  lemma RateBoundIff(start: nat)
    ensures (forall buckets, uploads, client :: StartsAt(buckets, uploads, start) ==>
               WithinRate(buckets, uploads, client)) <==> start >= 1
  {
    hide Admitted, Earned, BucketsOk;
    if start >= 1 {
      forall buckets, uploads, client | StartsAt(buckets, uploads, start)
        ensures WithinRate(buckets, uploads, client)
      {
        RateBound(buckets, uploads, client);
      }
    } else {
      var uploads := Repeated(Upload(0, 0), 4);
      RepeatedIsSteady(Upload(0, 0), 4);
      NoBuckets();
      assert StartsAt(map[], uploads, start);
      ZeroClockIsUnlimited(map[], 0, 4);
      NothingEarned();
      assert !WithinRate(map[], uploads, 0);
    }
  }

  lemma NoBuckets()
    ensures BucketsOk(map[], 0) && BucketOf(map[], 0).last == 0
  {
  }

  lemma NothingEarned()
    ensures Earned(0, 0) == 0.0
  {
  }

  lemma {:induction false} RepeatedIsSteady(u: Upload, n: nat)
    ensures forall i :: 0 <= i < n ==> Repeated(u, n)[i] == u
    decreases n
  {
    if n > 0 {
      RepeatedIsSteady(u, n - 1);
    }
  }

  // ---- the objects ----

  class AuditSpool {
    const capacity: nat
    const clean: Event -> Event
    var records: seq<Record>
    var next: nat
    var dropped: nat
    ghost var acked: nat

    ghost function View(): Spool
      reads this
    {
      Spool(capacity, records, next, dropped, acked)
    }

    ghost predicate Valid()
      reads this
    {
      SpoolOk(View())
    }

    constructor (capacity: nat, clean: Event -> Event)
      ensures Valid() && View() == Spool(if capacity == 0 then 1 else capacity, [], 1, 0, 0) && this.clean == clean
    {
      this.capacity, this.clean := if capacity == 0 then 1 else capacity, clean;
      records, next, dropped, acked := [], 1, 0, 0;
    }

    method DropExcess()
      requires Valid()
      modifies this`records, this`dropped
      ensures |records| < capacity
      ensures var excess := if |old(records)| >= capacity then |old(records)| - capacity + 1 else 0;
              records == old(records)[excess..] && dropped == old(dropped) + excess
    {
      ghost var n := 0;
      while |records| >= capacity
        invariant n <= |old(records)| && records == old(records)[n..] && dropped == old(dropped) + n
        invariant n == 0 || |records| >= capacity - 1
        decreases |records|
      {
        records := records[1..];
        dropped := dropped + 1;
        n := n + 1;
      }
    }

    method Emit(e: Event, now: nat) returns (sequence: nat)
      requires Valid()
      modifies this
      ensures Valid() && View() == Step(clean, old(View()), DoEmit(e, now)) && sequence == old(next)
    {
      SpoolConserves(clean, View(), [DoEmit(e, now)]);
      assert Run(clean, Step(clean, View(), DoEmit(e, now)), []) == Step(clean, View(), DoEmit(e, now));
      hide SpoolOk;
      assert SpoolOk(Step(clean, View(), DoEmit(e, now)));
      DropExcess();
      sequence := next;
      records := records + [Record(next, now, clean(e))];
      next := next + 1;
    }

    method PeekChunk(maximum: nat) returns (chunk: seq<Record>)
      ensures chunk == Peek(View(), maximum)
    {
      var limit := Min(maximum, |records|);
      chunk := [];
      for i := 0 to limit
        invariant chunk == records[..i]
      {
        chunk := chunk + [records[i]];
      }
    }

    method Acknowledge(last: nat)
      requires Valid()
      modifies this
      ensures Valid() && View() == Step(clean, old(View()), DoAcknowledge(last))
    {
      while records != [] && records[0].sequence <= last
        invariant SpoolOk(View()) && next == old(next) && dropped == old(dropped)
        invariant Step(clean, View(), DoAcknowledge(last)) ==
                  Step(clean, old(View()), DoAcknowledge(last))
        decreases |records|
      {
        records := records[1..];
        acked := acked + 1;
      }
    }
  }

  class UploadRateLimiter {
    var buckets: map<nat, Bucket>

    constructor ()
      ensures buckets == map[]
    {
      buckets := map[];
    }

    method Allow(client: nat, now: nat) returns (ok: bool)
      modifies this
      ensures buckets == Serve(old(buckets), Upload(client, now))
      ensures ok == Allows(old(buckets), Upload(client, now))
    {
      var b := BucketOf(buckets, client);
      if b.last == 0 {
        b := Bucket(BURST, now);
      } else if now > b.last {
        var full := b.tokens + (now - b.last) as real / REFILL_MILLISECONDS;
        b := Bucket(if full > BURST then BURST else full, now);
      }
      ok := b.tokens >= 1.0;
      if ok {
        b := b.(tokens := b.tokens - 1.0);
      }
      buckets := buckets[client := b];
    }
  }

  method AppendRecord(out: Buffer, r: Record)
    modifies out
    ensures out.bytes == old(out.bytes) + RecordBytes(r)
  {
    hide Le;
    out.AppendLe(r.sequence, 8);
    out.AppendLe(r.timestamp, 8);
    out.AppendBytes([r.event.category as byte]);
    out.AppendBytes([r.event.severity as byte]);
    out.AppendLe(r.event.operationId, 8);
    out.AppendLe(r.event.clientId, 8);
    assert out.bytes == old(out.bytes) + StampBytes(r);
    AppendField(out, r.event.component);
    AppendField(out, r.event.action);
    AppendField(out, r.event.result);
    AppendField(out, r.event.detail);
  }

  method AppendField(out: Buffer, t: seq<byte>)
    modifies out
    ensures out.bytes == old(out.bytes) + Field(t)
  {
    hide Le;
    out.AppendLe(|t|, 2);
    out.AppendBytes(t);
  }

  lemma BodySnoc(clean: Event -> Event, records: seq<Record>, i: nat)
    requires i < |records|
    ensures BodyBytes(clean, records[..i + 1]) ==
            BodyBytes(clean, records[..i]) + RecordBytes(Clean(clean, records[i]))
    decreases i
  {
    hide RecordBytes;
    BodyPrefix(clean, records, i + 1);
    if i > 0 {
      BodyPrefix(clean, records, i);
      BodySnoc(clean, records[1..], i - 1);
    } else {
      assert records[1..][..0] == [];
    }
  }

  lemma TakenStep(clean: Event -> Event, records: seq<Record>, count: nat, size: nat)
    requires count < |records| && count < MAX_EVENTS
    ensures var bytes := |RecordBytes(Clean(clean, records[count]))|;
            Taken(clean, records[count..], count, size) ==
            if 3 + size + bytes > MAX_CHUNK then 0 else 1 + Taken(clean, records[count + 1..], count + 1, size + bytes)
  {
    hide RecordBytes, Clean;
    assert records[count..][0] == records[count] && records[count..][1..] == records[count + 1..];
  }

  /** Record after record until one does not fit. */
  method EncodeBody(clean: Event -> Event, records: seq<Record>) returns (count: nat, body: seq<byte>)
    ensures count == Fitting(clean, records) && body == BodyBytes(clean, records[..count])
  {
    hide RecordBytes, Taken, BodyBytes;
    count, body := 0, [];
    assert records[..0] == [] && records[0..] == records;
    EmptyBody(clean);
    while count < |records| && count < MAX_EVENTS
      invariant count <= |records| && count <= MAX_EVENTS
      invariant body == BodyBytes(clean, records[..count])
      invariant Fitting(clean, records) == count + Taken(clean, records[count..], count, |body|)
      decreases |records| - count
    {
      TakenStep(clean, records, count, |body|);
      var encoded := new Buffer();
      AppendRecord(encoded, Clean(clean, records[count]));
      if 3 + |body| + |encoded.bytes| > MAX_CHUNK {
        return;
      }
      BodySnoc(clean, records, count);
      body := body + encoded.bytes;
      count := count + 1;
    }
    TakenNone(clean, records[count..], count, |body|);
  }

  lemma EmptyBody(clean: Event -> Event)
    ensures BodyBytes(clean, []) == []
  {
  }

  lemma TakenNone(clean: Event -> Event, records: seq<Record>, count: nat, size: nat)
    requires records == [] || count >= MAX_EVENTS
    ensures Taken(clean, records, count, size) == 0
  {
  }

  method EncodeAuditChunk(clean: Event -> Event, records: seq<Record>) returns (out: seq<byte>)
    ensures out == EncodeChunk(clean, records)
  {
    hide Taken, BodyBytes, Le;
    var count, body := EncodeBody(clean, records);
    var chunk := new Buffer();
    chunk.AppendBytes([1]);
    chunk.AppendLe(count, 2);
    chunk.AppendBytes(body);
    out := chunk.bytes;
  }
}
