/**
 * The durable outbox of exam answers: per session a hash chain of which an acknowledged prefix has been removed. A
 * reconnecting browser may rebase what is still stored, and one acknowledgement may retire several events.
 */
module AnswerOutbox {
  import opened Bytes
  import opened AnswerEvents

  const MAX_EVENTS: nat := 512
  const MAX_MARKS: nat := 4096
  const MAX_ID_BYTES: nat := 128

  datatype Owner = Owner(
    packageId: seq<byte>, packageDigest: Bytes32, clientId: Bytes16, sessionId: Bytes16, candidateId: seq<byte>)

  /** The watermark of one session: the newest event ever stored and the newest one acknowledged. */
  datatype Mark = Mark(
    owner: Owner, highest: nat, lastHash: Bytes32, acked: nat, ackedHash: Bytes32, finalized: bool)

  datatype Outbox = Outbox(events: seq<Event>, marks: map<Key, Mark>)

  datatype Result = Result(box: Outbox, ok: bool)

  const EMPTY := Outbox([], map[])

  function OwnerOf(e: Event): Owner {
    Owner(e.packageId, e.packageDigest, e.clientId, e.sessionId, e.candidateId)
  }

  /** The candidate is not part of the key; it is compared separately. */
  function SessionKey(o: Owner): Key {
    o.packageId + ([0] + (o.packageDigest + (o.clientId + o.sessionId)))
  }

  function KeyOf(e: Event): Key {
    SessionKey(OwnerOf(e))
  }

  predicate IdText(t: seq<byte>) {
    0 < |t| <= MAX_ID_BYTES && 0 !in t
  }

  /** The part of the event validation that concerns the fields modelled here. */
  predicate Validates(e: Event) {
    && IdText(e.packageId) && IdText(e.candidateId) && HasNonzero(e.packageDigest) && HasNonzero(e.clientId)
    && HasNonzero(e.sessionId) && 1 <= e.sequence <= U64_MAX && (e.sequence == 1 ==> !HasNonzero(e.previous))
  }

  predicate ValidMark(m: Mark) {
    && IdText(m.owner.packageId) && IdText(m.owner.candidateId) && HasNonzero(m.owner.packageDigest)
    && HasNonzero(m.owner.clientId) && HasNonzero(m.owner.sessionId)
    && 0 < m.highest <= U64_MAX && HasNonzero(m.lastHash) && m.acked <= m.highest
    && (m.acked == 0 <==> !HasNonzero(m.ackedHash))
  }

  /** The same answer, whatever its predecessor hash. */
  predicate SameBody(a: Event, b: Event) {
    a.(previous := b.previous) == b
  }

  /** The stored events of one session, in order. */
  function Window(events: seq<Event>, key: Key): seq<Event> {
    if events == [] then []
    else (if KeyOf(events[0]) == key then [events[0]] else []) + Window(events[1..], key)
  }

  /** Index of the event of a session with a sequence, |events| when there is none. */
  function FindSlot(events: seq<Event>, key: Key, sequence: nat): (i: nat)
    ensures i <= |events|
    ensures i < |events| ==> KeyOf(events[i]) == key && events[i].sequence == sequence
    ensures forall j :: 0 <= j < i ==> KeyOf(events[j]) != key || events[j].sequence != sequence
  {
    if events == [] then 0
    else if KeyOf(events[0]) == key && events[0].sequence == sequence then 0
    else 1 + FindSlot(events[1..], key, sequence)
  }

  // ---- the file ----

  predicate Encodable(hash: Hash, box: Outbox) {
    && |box.events| <= MAX_EVENTS && |box.marks| <= MAX_MARKS
    && (forall e :: e in box.events ==> hash(e).Some?)
    && (forall k :: k in box.marks ==> ValidMark(box.marks[k]))
  }

  /** Replaces the file; `written` is false when the size quota, protection or storage refuses. */
  function Commit(hash: Hash, box: Outbox, candidate: Outbox, written: bool): Result {
    if Encodable(hash, candidate) && written then Result(candidate, true) else Result(box, false)
  }

  // ---- storing an event ----

  datatype Chain = Chain(events: seq<Event>, last: Event)

  /** Rewrites the predecessor hashes of the events of one session that follow `last`. */
  function Rechain(hash: Hash, events: seq<Event>, key: Key, last: Event): Option<Chain>
    decreases |events|
  {
    if events == [] then Some(Chain([], last))
    else if KeyOf(events[0]) != key then
      match Rechain(hash, events[1..], key, last)
      case None => None
      case Some(c) => Some(Chain([events[0]] + c.events, c.last))
    else if last.sequence == U64_MAX || events[0].sequence != last.sequence + 1 || hash(last).None? then None
    else
      var next := events[0].(previous := hash(last).value);
      match Rechain(hash, events[1..], key, next)
      case None => None
      case Some(c) => Some(Chain([next] + c.events, c.last))
  }

  /** What a rebased event must name as its predecessor. */
  predicate Rebases(hash: Hash, before: seq<Event>, m: Mark, e: Event) {
    if before == [] then
      m.acked != U64_MAX && e.sequence == m.acked + 1 && (e.sequence == 1 <==> !HasNonzero(e.previous))
    else hash(before[|before| - 1]) == Some(e.previous)
  }

  function RebasedMark(m: Mark, first: bool, e: Event, last: Bytes32): Mark {
    m.(ackedHash := if first then e.previous else m.ackedHash, lastHash := last)
  }

  function Rebase(hash: Hash, box: Outbox, i: nat, e: Event, written: bool): Result
    requires i < |box.events| && KeyOf(e) in box.marks
  {
    var key := KeyOf(e);
    var before := Window(box.events[..i], key);
    var rest := Rechain(hash, box.events[i + 1..], key, e);
    if !Rebases(hash, before, box.marks[key], e) || rest.None? || hash(rest.value.last).None? then Result(box, false)
    else
      var mark := RebasedMark(box.marks[key], before == [], e, hash(rest.value.last).value);
      Commit(hash, box, Outbox(box.events[..i] + [e] + rest.value.events, box.marks[key := mark]), written)
  }

  /** The event already has a slot. */
  function Replace(hash: Hash, box: Outbox, i: nat, e: Event, written: bool): Result
    requires i < |box.events|
  {
    var key := KeyOf(e);
    if hash(box.events[i]) == hash(e) then Result(box, true)
    else if !SameBody(box.events[i], e) || key !in box.marks then Result(box, false)
    else if box.marks[key].finalized || e.sequence <= box.marks[key].acked then Result(box, false)
    else Rebase(hash, box, i, e, written)
  }

  function GrownMark(m: Mark, e: Event, h: Bytes32): Mark {
    m.(highest := e.sequence, lastHash := h, finalized := m.finalized || e.finalize)
  }

  /** The event extends its session. */
  function Append(hash: Hash, box: Outbox, e: Event, mark: Mark, written: bool): Result {
    if |box.events| >= MAX_EVENTS then Result(box, false)
    else Commit(hash, box, Outbox(box.events + [e], box.marks[KeyOf(e) := mark]), written)
  }

  function Enqueued(hash: Hash, box: Outbox, e: Event, written: bool): Result {
    var key := KeyOf(e);
    var i := FindSlot(box.events, key, e.sequence);
    if !Validates(e) || hash(e).None? then Result(box, false)
    else if i < |box.events| then Replace(hash, box, i, e, written)
    else
      var h := hash(e).value;
      if key !in box.marks then
        if e.sequence != 1 || HasNonzero(e.previous) then Result(box, false)
        else Append(hash, box, e, Mark(OwnerOf(e), 1, h, 0, Zeros(32), e.finalize), written)
      else
        var m := box.marks[key];
        if m.owner != OwnerOf(e) then Result(box, false)
        else if m.finalized || e.sequence <= m.highest then
          Result(box, e.sequence == m.highest && h == m.lastHash)
        else if m.highest == U64_MAX || e.sequence != m.highest + 1 || e.previous != m.lastHash then
          Result(box, false)
        else Append(hash, box, e, GrownMark(m, e, h), written)
  }

  // ---- acknowledging ----

  predicate EventNamed(hash: Hash, e: Event, a: Ack) {
    e.sessionId == a.sessionId && e.sequence == a.sequence && hash(e) == Some(a.hash)
  }

  predicate MarkNamed(m: Mark, a: Ack) {
    m.owner.sessionId == a.sessionId &&
    ((a.sequence == m.acked && a.hash == m.ackedHash) || (a.sequence == m.highest && a.hash == m.lastHash))
  }

  /** Sessions with the session id of an acknowledgement. */
  function Candidates(box: Outbox, a: Ack): set<Key> {
    (set e | e in box.events && e.sessionId == a.sessionId :: KeyOf(e)) +
    (set k | k in box.marks && box.marks[k].owner.sessionId == a.sessionId)
  }

  /** Sessions in which an acknowledgement names an event exactly. */
  function Exact(hash: Hash, box: Outbox, a: Ack): set<Key> {
    (set e | e in box.events && EventNamed(hash, e, a) :: KeyOf(e)) +
    (set k | k in box.marks && MarkNamed(box.marks[k], a))
  }

  ghost function Only(keys: set<Key>): (k: Key)
    requires |keys| == 1
    ensures keys == {k}
  {
    var k :| k in keys;
    assert |keys - {k}| == 0;
    k
  }

  /** The one session an acknowledgement can mean. */
  ghost function Selected(hash: Hash, box: Outbox, a: Ack): Option<Key> {
    if |Exact(hash, box, a)| == 1 then Some(Only(Exact(hash, box, a)))
    else if |Exact(hash, box, a)| == 0 && |Candidates(box, a)| == 1 then Some(Only(Candidates(box, a)))
    else None
  }

  function AckedMark(m: Mark, sequence: nat, h: Bytes32): Mark {
    m.(acked := sequence, ackedHash := h)
  }

  /** The events an acknowledgement leaves. */
  function Remaining(events: seq<Event>, key: Key, sequence: nat): seq<Event> {
    if events == [] then []
    else
      (if KeyOf(events[0]) == key && events[0].sequence <= sequence then [] else [events[0]]) +
      Remaining(events[1..], key, sequence)
  }

  function RetireStored(hash: Hash, box: Outbox, key: Key, i: nat, a: Ack, written: bool): Result
    requires i < |box.events|
  {
    if hash(box.events[i]) != Some(a.hash) || key !in box.marks then Result(box, false)
    else
      var m := box.marks[key];
      if a.sequence > m.highest || a.sequence <= m.acked then Result(box, false)
      else
        Commit(hash, box, Outbox(Remaining(box.events, key, a.sequence),
                                 box.marks[key := AckedMark(m, a.sequence, a.hash)]), written)
  }

  /** No stored event has the sequence: only a boundary of the watermark can still be verified. */
  function RetireBoundary(hash: Hash, box: Outbox, key: Key, a: Ack, written: bool): Result {
    if key !in box.marks then Result(box, false)
    else
      var m := box.marks[key];
      if a.sequence > m.highest then Result(box, false)
      else if a.sequence == m.acked then Result(box, a.hash == m.ackedHash)
      else if a.sequence < m.acked || a.sequence != m.highest || a.hash != m.lastHash then Result(box, false)
      else Commit(hash, box, box.(marks := box.marks[key := AckedMark(m, a.sequence, m.lastHash)]), written)
  }

  ghost function Acknowledged(hash: Hash, box: Outbox, a: Ack, written: bool): Result {
    var selected := Selected(hash, box, a);
    if a.sequence == 0 || selected.None? then Result(box, false)
    else
      var i := FindSlot(box.events, selected.value, a.sequence);
      if i < |box.events| then RetireStored(hash, box, selected.value, i, a, written)
      else RetireBoundary(hash, box, selected.value, a, written)
  }

  // ---- invariant ----

  /** A hash chain of consecutive sequences that continues from sequence `n` with hash `h`. */
  ghost predicate Chained(hash: Hash, w: seq<Event>, h: Bytes32, n: nat) {
    w == [] ||
    (w[0].sequence == n + 1 && w[0].previous == h && hash(w[0]).Some? &&
     Chained(hash, w[1..], hash(w[0]).value, n + 1))
  }

  function EndHash(hash: Hash, w: seq<Event>, h: Bytes32): Bytes32 {
    if w == [] then h else HashField(hash, w[|w| - 1])
  }

  /** Only the newest event of a session can be final, and the mark knows it. */
  ghost predicate Finals(w: seq<Event>, finalized: bool) {
    && (forall i :: 0 <= i < |w| - 1 ==> !w[i].finalize)
    && (w != [] ==> w[|w| - 1].finalize == finalized)
  }

  /** What is stored of a session is the chain between the acknowledged event and the newest one. */
  ghost predicate SessionOk(hash: Hash, w: seq<Event>, m: Mark) {
    && ValidMark(m) && Chained(hash, w, m.ackedHash, m.acked) && m.highest == m.acked + |w|
    && m.lastHash == EndHash(hash, w, m.ackedHash) && Finals(w, m.finalized)
    && (forall e :: e in w ==> OwnerOf(e) == m.owner)
  }

  ghost predicate OutboxOk(hash: Hash, box: Outbox) {
    && Encodable(hash, box)
    && (forall e :: e in box.events ==> Validates(e) && KeyOf(e) in box.marks)
    && (forall k :: k in box.marks ==>
          SessionKey(box.marks[k].owner) == k && SessionOk(hash, Window(box.events, k), box.marks[k]))
  }

  // ---- windows and chains ----

  lemma WindowNil(key: Key)
    ensures Window([], key) == []
  {
  }

  lemma WindowCons(e: Event, rest: seq<Event>, key: Key)
    ensures Window([e] + rest, key) == if KeyOf(e) == key then [e] + Window(rest, key) else Window(rest, key)
  {
    hide KeyOf;
    assert ([e] + rest)[1..] == rest;
  }

  lemma ConsConcat(x: Event, a: seq<Event>, b: seq<Event>)
    ensures ([x] + a) + b == [x] + (a + b)
  {
  }

  lemma {:induction false} WindowConcat(a: seq<Event>, b: seq<Event>, key: Key)
    ensures Window(a + b, key) == Window(a, key) + Window(b, key)
  {
    hide KeyOf, Window;
    if a == [] {
      assert a + b == b;
      WindowNil(key);
    } else {
      var x, tail := a[0], a[1..];
      assert a == [x] + tail;
      ConsConcat(x, tail, b);
      WindowCons(x, tail, key);
      WindowCons(x, tail + b, key);
      WindowConcat(tail, b, key);
      if KeyOf(x) == key {
        ConsConcat(x, Window(tail, key), Window(b, key));
      }
    }
  }

  lemma {:induction false} WindowMember(events: seq<Event>, key: Key, e: Event)
    ensures e in Window(events, key) <==> e in events && KeyOf(e) == key
  {
    hide KeyOf;
    if events != [] {
      WindowMember(events[1..], key, e);
    }
  }

  lemma WindowSplit(events: seq<Event>, i: nat, key: Key)
    requires i < |events| && KeyOf(events[i]) == key
    ensures Window(events, key) == Window(events[..i], key) + [events[i]] + Window(events[i + 1..], key)
  {
    hide KeyOf;
    assert events == events[..i] + ([events[i]] + events[i + 1..]);
    WindowConcat(events[..i], [events[i]] + events[i + 1..], key);
    assert ([events[i]] + events[i + 1..])[1..] == events[i + 1..];
  }

  lemma {:induction false} ChainedSplit(hash: Hash, a: seq<Event>, b: seq<Event>, h: Bytes32, n: nat)
    ensures Chained(hash, a + b, h, n) <==>
            Chained(hash, a, h, n) && Chained(hash, b, EndHash(hash, a, h), n + |a|)
  {
    if a == [] {
      assert a + b == b;
    } else {
      assert (a + b)[1..] == a[1..] + b;
      if hash(a[0]).Some? {
        ChainedSplit(hash, a[1..], b, hash(a[0]).value, n + 1);
        assert EndHash(hash, a[1..], hash(a[0]).value) == EndHash(hash, a, h);
      }
    }
  }

  lemma {:induction false} ChainedAt(hash: Hash, w: seq<Event>, h: Bytes32, n: nat, i: nat)
    requires Chained(hash, w, h, n) && i < |w|
    ensures w[i].sequence == n + 1 + i && hash(w[i]).Some?
    ensures w[i].previous == EndHash(hash, w[..i], h)
  {
    if i == 0 {
    } else {
      ChainedAt(hash, w[1..], hash(w[0]).value, n + 1, i - 1);
      if i > 1 {
        assert w[..i][i - 1] == w[1..][..i - 1][i - 2];
      }
    }
  }

  lemma {:induction false} WindowsAgree(a: seq<Event>, b: seq<Event>, key: Key)
    requires |a| == |b|
    requires forall i :: 0 <= i < |a| ==> KeyOf(a[i]) == KeyOf(b[i]) && (KeyOf(a[i]) == key ==> a[i] == b[i])
    ensures Window(a, key) == Window(b, key)
  {
    hide KeyOf;
    if a != [] {
      WindowsAgree(a[1..], b[1..], key);
    }
  }

  lemma NoMarkNoWindow(hash: Hash, box: Outbox, key: Key)
    requires OutboxOk(hash, box) && key !in box.marks
    ensures Window(box.events, key) == []
  {
    hide KeyOf;
    if Window(box.events, key) != [] {
      WindowMember(box.events, key, Window(box.events, key)[0]);
    }
  }

  // ---- storing keeps the chains ----

  lemma AppendKeeps(hash: Hash, box: Outbox, e: Event, mark: Mark, written: bool)
    requires OutboxOk(hash, box) && Validates(e) && SessionKey(mark.owner) == KeyOf(e)
    requires ValidMark(mark) ==> SessionOk(hash, Window(box.events, KeyOf(e)) + [e], mark)
    ensures OutboxOk(hash, Append(hash, box, e, mark, written).box)
  {
    hide KeyOf, SessionOk, SessionKey, Validates, ValidMark;
    var key := KeyOf(e);
    var r := Append(hash, box, e, mark, written);
    if r.ok {
      assert [e][1..] == [];
      assert Window([e], key) == [e];
      assert mark == r.box.marks[key];
      forall k | k in r.box.marks
        ensures SessionKey(r.box.marks[k].owner) == k && SessionOk(hash, Window(r.box.events, k), r.box.marks[k])
      {
        WindowConcat(box.events, [e], k);
        assert Window([e], k) == if k == key then [e] else [];
        assert Window(box.events, k) + [] == Window(box.events, k);
      }
    }
  }

  lemma GrownOk(hash: Hash, w: seq<Event>, m: Mark, e: Event)
    requires SessionOk(hash, w, m) && !m.finalized && OwnerOf(e) == m.owner && hash(e).Some?
    requires e.sequence == m.highest + 1 && e.previous == m.lastHash
    requires ValidMark(GrownMark(m, e, hash(e).value))
    ensures SessionOk(hash, w + [e], GrownMark(m, e, hash(e).value))
  {
    ChainedSplit(hash, w, [e], m.ackedHash, m.acked);
  }

  ghost predicate BodiesKept(a: seq<Event>, b: seq<Event>, key: Key) {
    && |a| == |b|
    && forall i :: 0 <= i < |a| ==> SameBody(a[i], b[i]) && (KeyOf(a[i]) != key ==> a[i] == b[i])
  }

  /** Rechaining continues the chain from the given event and touches nothing but predecessor hashes. */
  lemma {:induction false} RechainOk(hash: Hash, events: seq<Event>, key: Key, last: Event, h: Bytes32)
    requires Chained(hash, Window(events, key), h, last.sequence)
    ensures var c := Rechain(hash, events, key, last);
            c.Some? && hash(c.value.last).Some? ==>
              var w := Window(c.value.events, key);
              && BodiesKept(events, c.value.events, key) && |w| == |Window(events, key)|
              && hash(last).Some? && Chained(hash, w, hash(last).value, last.sequence)
              && c.value.last == if w == [] then last else w[|w| - 1]
    decreases |events|
  {
    hide KeyOf, Window, BodiesKept, SameBody;
    var c := Rechain(hash, events, key, last);
    if events == [] {
      WindowNil(key);
      NoBodies(key);
    } else if c.Some? && hash(c.value.last).Some? {
      var x, tail := events[0], events[1..];
      assert events == [x] + tail;
      WindowCons(x, tail, key);
      if KeyOf(x) != key {
        RechainOk(hash, tail, key, last, h);
        var rest := Rechain(hash, tail, key, last).value.events;
        WindowCons(x, rest, key);
        BodiesCons(x, tail, x, rest, key);
      } else {
        var next := x.(previous := hash(last).value);
        KeyIgnoresPrevious(x, hash(last).value);
        assert Window(events, key)[1..] == Window(tail, key);
        RechainOk(hash, tail, key, next, hash(x).value);
        var rest := Rechain(hash, tail, key, next).value.events;
        WindowCons(next, rest, key);
        assert Window(c.value.events, key)[1..] == Window(rest, key);
        BodiesCons(x, tail, next, rest, key);
      }
    }
  }

  lemma NoBodies(key: Key)
    ensures BodiesKept([], [], key)
  {
  }

  lemma BodiesCons(x: Event, a: seq<Event>, y: Event, b: seq<Event>, key: Key)
    requires BodiesKept(a, b, key) && (x == y || (KeyOf(x) == key && y == x.(previous := y.previous)))
    ensures BodiesKept([x] + a, [y] + b, key)
  {
    hide KeyOf;
  }

  lemma KeyIgnoresPrevious(e: Event, h: Bytes32)
    ensures KeyOf(e.(previous := h)) == KeyOf(e)
  {
  }

  /** A rebased suffix and the untouched prefix form one chain again. */
  lemma RebasedChain(hash: Hash, before: seq<Event>, x: Event, after: seq<Event>, e: Event, rest: seq<Event>, m: Mark)
    requires Chained(hash, before + [x] + after, m.ackedHash, m.acked) && SameBody(x, e) && hash(e).Some?
    requires Rebases(hash, before, m, e) && Chained(hash, rest, hash(e).value, e.sequence)
    ensures Chained(hash, before + [e] + rest, if before == [] then e.previous else m.ackedHash, m.acked)
  {
    assert before + [x] + after == before + ([x] + after);
    assert before + [e] + rest == before + ([e] + rest);
    ChainedSplit(hash, before, [x] + after, m.ackedHash, m.acked);
    assert ([e] + rest)[1..] == rest && ([e] + rest)[0] == e;
    ChainedSplit(hash, before, [e] + rest, if before == [] then e.previous else m.ackedHash, m.acked);
  }

  lemma SuffixChain(hash: Hash, before: seq<Event>, x: Event, after: seq<Event>, h: Bytes32, n: nat)
    requires Chained(hash, before + [x] + after, h, n)
    ensures hash(x).Some? && Chained(hash, after, hash(x).value, x.sequence)
  {
    assert before + [x] + after == before + ([x] + after);
    ChainedSplit(hash, before, [x] + after, h, n);
    assert ([x] + after)[1..] == after;
  }

  /** What a rebase makes of the window of its session. */
  lemma RebaseWindow(hash: Hash, events: seq<Event>, i: nat, e: Event, m: Mark)
    requires i < |events| && SameBody(events[i], e) && hash(e).Some?
    requires SessionOk(hash, Window(events, KeyOf(e)), m) && Rebases(hash, Window(events[..i], KeyOf(e)), m, e)
    ensures var key := KeyOf(e);
            var c := Rechain(hash, events[i + 1..], key, e);
            c.Some? && hash(c.value.last).Some? ==>
              var more := events[..i] + [e] + c.value.events;
              var mark := RebasedMark(m, Window(events[..i], key) == [], e, hash(c.value.last).value);
              && BodiesKept(events, more, key)
              && (ValidMark(mark) ==> SessionOk(hash, Window(more, key), mark))
  {
    hide KeyOf, Finals, ValidMark, Chained, SameBody, Rebases, Window, Rechain, BodiesKept;
    var key := KeyOf(e);
    BodyKey(events[i], e);
    var before, after := Window(events[..i], key), Window(events[i + 1..], key);
    WindowSplit(events, i, key);
    SuffixChain(hash, before, events[i], after, m.ackedHash, m.acked);
    RechainOk(hash, events[i + 1..], key, e, hash(events[i]).value);
    var c := Rechain(hash, events[i + 1..], key, e);
    if c.Some? && hash(c.value.last).Some? {
      var more := events[..i] + [e] + c.value.events;
      assert more[i] == e && more[..i] == events[..i] && more[i + 1..] == c.value.events;
      WindowSplit(more, i, key);
      RebasedChain(hash, before, events[i], after, e, Window(c.value.events, key), m);
      RebasedBodies(events, i, e, c.value.events, key);
      RebasedFinals(events, more, key, m);
      RebasedOwners(events, more, key, m.owner);
    }
  }

  lemma RebasedBodies(events: seq<Event>, i: nat, e: Event, rest: seq<Event>, key: Key)
    requires i < |events| && SameBody(events[i], e) && KeyOf(events[i]) == key
    requires BodiesKept(events[i + 1..], rest, key)
    ensures BodiesKept(events, events[..i] + [e] + rest, key)
  {
    hide KeyOf;
    var more := events[..i] + [e] + rest;
    forall j | 0 <= j < |events|
      ensures SameBody(events[j], more[j]) && (KeyOf(events[j]) != key ==> events[j] == more[j])
    {
      if j > i {
        assert events[j] == events[i + 1..][j - i - 1] && more[j] == rest[j - i - 1];
      }
    }
  }

  lemma {:induction false} BodiesInWindow(a: seq<Event>, b: seq<Event>, key: Key)
    requires BodiesKept(a, b, key)
    ensures |Window(a, key)| == |Window(b, key)|
    ensures forall i :: 0 <= i < |Window(a, key)| ==> SameBody(Window(a, key)[i], Window(b, key)[i])
  {
    hide KeyOf, SameBody;
    if a != [] {
      BodyKey(a[0], b[0]);
      assert BodiesKept(a[1..], b[1..], key);
      BodiesInWindow(a[1..], b[1..], key);
    }
  }

  lemma BodyKey(a: Event, b: Event)
    requires SameBody(a, b)
    ensures KeyOf(a) == KeyOf(b) && OwnerOf(a) == OwnerOf(b) && a.sequence == b.sequence && a.finalize == b.finalize
  {
  }

  lemma RebasedFinals(a: seq<Event>, b: seq<Event>, key: Key, m: Mark)
    requires BodiesKept(a, b, key) && Finals(Window(a, key), m.finalized)
    ensures Finals(Window(b, key), m.finalized)
  {
    hide KeyOf;
    BodiesInWindow(a, b, key);
  }

  lemma RebasedOwners(a: seq<Event>, b: seq<Event>, key: Key, owner: Owner)
    requires BodiesKept(a, b, key) && forall e :: e in Window(a, key) ==> OwnerOf(e) == owner
    ensures forall e :: e in Window(b, key) ==> OwnerOf(e) == owner
  {
    hide KeyOf;
    BodiesInWindow(a, b, key);
    forall e | e in Window(b, key)
      ensures OwnerOf(e) == owner
    {
      var i :| 0 <= i < |Window(b, key)| && Window(b, key)[i] == e;
      BodyKey(Window(a, key)[i], e);
    }
  }

  lemma {:induction false} KeyedAlike(a: seq<Event>, b: seq<Event>, key: Key, other: Key)
    requires BodiesKept(a, b, key) && other != key
    ensures Window(b, other) == Window(a, other)
  {
    hide KeyOf, SameBody;
    forall i | 0 <= i < |a|
      ensures KeyOf(b[i]) == KeyOf(a[i])
    {
      BodyKey(a[i], b[i]);
    }
    WindowsAgree(b, a, other);
  }

  /** Later events of a session are never its first one, so rechaining them keeps them valid. */
  lemma RebasedValid(hash: Hash, events: seq<Event>, i: nat, e: Event, m: Mark, rest: seq<Event>)
    requires i < |events| && (forall x :: x in events ==> Validates(x)) && Validates(e) && SameBody(events[i], e)
    requires SessionOk(hash, Window(events, KeyOf(e)), m) && BodiesKept(events[i + 1..], rest, KeyOf(e))
    ensures forall x :: x in events[..i] + [e] + rest ==> Validates(x)
  {
    hide KeyOf, Validates, Window, Chained, SameBody, ValidMark, Finals;
    assert events[i].sequence >= 1 by { assert Validates(events[i]); FirstSequence(events[i]); }
    var key := KeyOf(e);
    BodyKey(events[i], e);
    var before, after := Window(events[..i], key), Window(events[i + 1..], key);
    WindowSplit(events, i, key);
    SuffixChain(hash, before, events[i], after, m.ackedHash, m.acked);
    forall j | 0 <= j < |rest|
      ensures Validates(rest[j])
    {
      var x := events[i + 1..][j];
      assert x == events[i + 1 + j];
      if KeyOf(x) == key {
        WindowMember(events[i + 1..], key, x);
        var k :| 0 <= k < |after| && after[k] == x;
        ChainedAt(hash, after, hash(events[i]).value, events[i].sequence, k);
        LaterStaysValid(x, rest[j]);
      }
    }
  }

  lemma FirstSequence(e: Event)
    requires Validates(e)
    ensures e.sequence >= 1
  {
  }

  lemma LaterStaysValid(a: Event, b: Event)
    requires Validates(a) && SameBody(a, b) && a.sequence > 1
    ensures Validates(b)
  {
  }

  lemma RebaseKeeps(hash: Hash, box: Outbox, i: nat, e: Event, written: bool)
    requires OutboxOk(hash, box) && Validates(e) && hash(e).Some?
    requires i < |box.events| && SameBody(box.events[i], e) && KeyOf(e) in box.marks
    ensures var r := Rebase(hash, box, i, e, written);
            OutboxOk(hash, r.box) && (r.ok ==> BodiesKept(box.events, r.box.events, KeyOf(e)))
  {
    hide KeyOf, SessionOk, SessionKey, Validates, ValidMark, Rechain, Rebases, Window, BodiesKept, SameBody;
    var key := KeyOf(e);
    var r := Rebase(hash, box, i, e, written);
    if r.ok {
      var m := box.marks[key];
      RebaseWindow(hash, box.events, i, e, m);
      var c := Rechain(hash, box.events[i + 1..], key, e).value;
      BodyKey(box.events[i], e);
      RebasedSuffix(hash, box.events, i, e, m);
      RebasedValid(hash, box.events, i, e, m, c.events);
      assert r.box.events == box.events[..i] + [e] + c.events;
      RebasedKeys(box, r.box.events, key);
      forall k | k in r.box.marks
        ensures SessionKey(r.box.marks[k].owner) == k && SessionOk(hash, Window(r.box.events, k), r.box.marks[k])
      {
        if k != key {
          KeyedAlike(box.events, r.box.events, key, k);
        }
      }
    }
  }

  lemma RebasedSuffix(hash: Hash, events: seq<Event>, i: nat, e: Event, m: Mark)
    requires i < |events| && SameBody(events[i], e) && KeyOf(events[i]) == KeyOf(e)
    requires SessionOk(hash, Window(events, KeyOf(e)), m)
    ensures var c := Rechain(hash, events[i + 1..], KeyOf(e), e);
            c.Some? && hash(c.value.last).Some? ==> BodiesKept(events[i + 1..], c.value.events, KeyOf(e))
  {
    hide KeyOf, Finals, ValidMark, Chained, SameBody, Window, Rechain, BodiesKept;
    var key := KeyOf(e);
    BodyKey(events[i], e);
    WindowSplit(events, i, key);
    SuffixChain(hash, Window(events[..i], key), events[i], Window(events[i + 1..], key), m.ackedHash, m.acked);
    RechainOk(hash, events[i + 1..], key, e, hash(events[i]).value);
  }

  lemma RebasedKeys(box: Outbox, more: seq<Event>, key: Key)
    requires BodiesKept(box.events, more, key) && forall e :: e in box.events ==> KeyOf(e) in box.marks
    ensures forall e :: e in more ==> KeyOf(e) in box.marks
  {
    hide KeyOf, SameBody;
    forall e | e in more
      ensures KeyOf(e) in box.marks
    {
      var i :| 0 <= i < |more| && more[i] == e;
      BodyKey(box.events[i], e);
    }
  }

  lemma SlotInWindow(hash: Hash, box: Outbox, e: Event)
    requires OutboxOk(hash, box) && e in box.events
    ensures var m := box.marks[KeyOf(e)];
            m.acked < e.sequence <= m.highest && OwnerOf(e) == m.owner
  {
    hide KeyOf, Validates, ValidMark, Finals;
    var key := KeyOf(e);
    var w, m := Window(box.events, key), box.marks[key];
    WindowMember(box.events, key, e);
    var i :| 0 <= i < |w| && w[i] == e;
    ChainedAt(hash, w, m.ackedHash, m.acked, i);
  }

  lemma SlotOfWindow(hash: Hash, box: Outbox, key: Key, sequence: nat)
    requires OutboxOk(hash, box) && key in box.marks && box.marks[key].acked < sequence <= box.marks[key].highest
    ensures exists e :: e in box.events && KeyOf(e) == key && e.sequence == sequence
  {
    hide KeyOf, Validates, ValidMark, Finals, Encodable, Window, Chained;
    var m, w := box.marks[key], Window(box.events, key);
    var i := sequence - m.acked - 1;
    ChainedAt(hash, w, m.ackedHash, m.acked, i);
    WindowMember(box.events, key, w[i]);
  }

  /** Every sequence between the marks has its event. */
  lemma SlotFilled(hash: Hash, box: Outbox, key: Key, sequence: nat)
    requires OutboxOk(hash, box) && key in box.marks
    ensures FindSlot(box.events, key, sequence) < |box.events| <==>
            box.marks[key].acked < sequence <= box.marks[key].highest
  {
    hide KeyOf, OutboxOk, FindSlot;
    var i := FindSlot(box.events, key, sequence);
    var m := box.marks[key];
    if i < |box.events| {
      SlotInWindow(hash, box, box.events[i]);
    } else if m.acked < sequence <= m.highest {
      SlotOfWindow(hash, box, key, sequence);
    }
  }

  lemma EnqueueKeeps(hash: Hash, box: Outbox, e: Event, written: bool)
    requires OutboxOk(hash, box)
    ensures OutboxOk(hash, Enqueued(hash, box, e, written).box)
  {
    hide OutboxOk, KeyOf, Validates, Append, Rebase, SessionOk;
    var key := KeyOf(e);
    var i := FindSlot(box.events, key, e.sequence);
    if Validates(e) && hash(e).Some? {
      if i < |box.events| {
        if SameBody(box.events[i], e) && key in box.marks {
          RebaseKeeps(hash, box, i, e, written);
        }
      } else if key !in box.marks {
        if e.sequence == 1 && !HasNonzero(e.previous) {
          FirstKeeps(hash, box, e, written);
        }
      } else if box.marks[key].owner == OwnerOf(e) && !box.marks[key].finalized &&
                e.sequence == box.marks[key].highest + 1 && e.previous == box.marks[key].lastHash {
        NextKeeps(hash, box, e, written);
      }
    }
  }

  lemma FirstKeeps(hash: Hash, box: Outbox, e: Event, written: bool)
    requires OutboxOk(hash, box) && Validates(e) && hash(e).Some? && KeyOf(e) !in box.marks
    requires e.sequence == 1 && !HasNonzero(e.previous)
    ensures var mark := Mark(OwnerOf(e), 1, hash(e).value, 0, Zeros(32), e.finalize);
            OutboxOk(hash, Append(hash, box, e, mark, written).box)
  {
    hide Append, OutboxOk, Validates;
    NoMarkNoWindow(hash, box, KeyOf(e));
    NoneNonzero(e.previous);
    var mark := Mark(OwnerOf(e), 1, hash(e).value, 0, Zeros(32), e.finalize);
    assert Window(box.events, KeyOf(e)) + [e] == [e];
    if ValidMark(mark) {
      FirstSession(hash, e, mark);
    }
    AppendKeeps(hash, box, e, mark, written);
  }

  lemma FirstSession(hash: Hash, e: Event, mark: Mark)
    requires ValidMark(mark) && mark.highest == 1 && mark.acked == 0 && mark.owner == OwnerOf(e) && e.sequence == 1
    requires hash(e) == Some(mark.lastHash) && mark.ackedHash == e.previous && mark.finalized == e.finalize
    ensures SessionOk(hash, [e], mark)
  {
    assert [e][1..] == [];
    assert Chained(hash, [], mark.lastHash, 1);
  }

  lemma NoneNonzero(h: Bytes32)
    requires !HasNonzero(h)
    ensures h == Zeros(32)
  {
  }

  lemma NextKeeps(hash: Hash, box: Outbox, e: Event, written: bool)
    requires OutboxOk(hash, box) && Validates(e) && hash(e).Some? && KeyOf(e) in box.marks
    requires var m := box.marks[KeyOf(e)];
             m.owner == OwnerOf(e) && !m.finalized && e.sequence == m.highest + 1 && e.previous == m.lastHash
    ensures OutboxOk(hash, Append(hash, box, e, GrownMark(box.marks[KeyOf(e)], e, hash(e).value), written).box)
  {
    hide Append, SessionOk, Validates, GrownMark, ValidMark;
    var m := box.marks[KeyOf(e)];
    var grown := GrownMark(m, e, hash(e).value);
    if ValidMark(grown) {
      GrownOk(hash, Window(box.events, KeyOf(e)), m, e);
    }
    assert grown.owner == m.owner by { GrownOwner(m, e, hash(e).value); }
    hide OutboxOk;
    AppendKeeps(hash, box, e, grown, written);
  }

  lemma GrownOwner(m: Mark, e: Event, h: Bytes32)
    ensures GrownMark(m, e, h).owner == m.owner
  {
  }

  // ---- acknowledging keeps the chains ----

  lemma {:induction false} RemainingWindow(events: seq<Event>, key: Key, sequence: nat, other: Key)
    ensures Window(Remaining(events, key, sequence), other) ==
            if other == key then Remaining(Window(events, key), key, sequence) else Window(events, other)
  {
    hide KeyOf, Window;
    if events == [] {
      WindowNil(other);
      WindowNil(key);
    } else {
      var x, tail := events[0], events[1..];
      assert events == [x] + tail;
      RemainingWindow(tail, key, sequence, other);
      WindowCons(x, tail, key);
      WindowCons(x, tail, other);
      WindowCons(x, Remaining(tail, key, sequence), other);
      if KeyOf(x) == key {
        assert ([x] + Window(tail, key))[1..] == Window(tail, key);
      }
      if KeyOf(x) == key && x.sequence <= sequence {
        assert Remaining(events, key, sequence) == Remaining(tail, key, sequence);
      }
    }
  }

  /** Of a chain an acknowledgement leaves the suffix after the acknowledged sequence. */
  lemma {:induction false} RemainingChain(hash: Hash, w: seq<Event>, key: Key, h: Bytes32, n: nat, sequence: nat)
    requires Chained(hash, w, h, n) && (forall e :: e in w ==> KeyOf(e) == key)
    ensures Remaining(w, key, sequence) ==
            if sequence <= n then w else if sequence >= n + |w| then [] else w[sequence - n..]
  {
    hide KeyOf;
    if w != [] {
      RemainingChain(hash, w[1..], key, hash(w[0]).value, n + 1, sequence);
    }
  }

  lemma RetiredSession(hash: Hash, w: seq<Event>, m: Mark, key: Key, x: Event, h: Bytes32)
    requires SessionOk(hash, w, m) && (forall e :: e in w ==> KeyOf(e) == key)
    requires x in w && hash(x) == Some(h) && ValidMark(AckedMark(m, x.sequence, h))
    ensures SessionOk(hash, Remaining(w, key, x.sequence), AckedMark(m, x.sequence, h))
  {
    hide KeyOf, ValidMark, Chained, Remaining, Finals;
    var i :| 0 <= i < |w| && w[i] == x;
    ChainedAt(hash, w, m.ackedHash, m.acked, i);
    RemainingChain(hash, w, key, m.ackedHash, m.acked, x.sequence);
    var rest := w[i + 1..];
    assert w == w[..i + 1] + rest && w[..i + 1][i] == x;
    ChainedSplit(hash, w[..i + 1], rest, m.ackedHash, m.acked);
    EmptyChain(hash, h, x.sequence);
    assert Remaining(w, key, x.sequence) == rest;
    FinalsSuffix(w, i + 1, m.finalized);
    assert EndHash(hash, rest, h) == m.lastHash && m.highest == x.sequence + |rest|;
  }

  lemma FinalsSuffix(w: seq<Event>, i: nat, finalized: bool)
    requires Finals(w, finalized) && i <= |w|
    ensures Finals(w[i..], finalized)
  {
  }

  lemma EmptyChain(hash: Hash, h: Bytes32, n: nat)
    ensures Chained(hash, [], h, n)
  {
  }

  lemma {:induction false} RemainingMember(events: seq<Event>, key: Key, sequence: nat, e: Event)
    ensures e in Remaining(events, key, sequence) <==> e in events && !(KeyOf(e) == key && e.sequence <= sequence)
    ensures |Remaining(events, key, sequence)| <= |events|
  {
    hide KeyOf;
    if events != [] {
      RemainingMember(events[1..], key, sequence, e);
    }
  }

  lemma RetireStoredKeeps(hash: Hash, box: Outbox, key: Key, i: nat, a: Ack, written: bool)
    requires OutboxOk(hash, box) && i < |box.events| && KeyOf(box.events[i]) == key
    requires box.events[i].sequence == a.sequence
    ensures OutboxOk(hash, RetireStored(hash, box, key, i, a, written).box)
  {
    hide KeyOf, SessionOk, SessionKey, Validates, ValidMark, Window, Remaining;
    var r := RetireStored(hash, box, key, i, a, written);
    if r.ok {
      var m, x := box.marks[key], box.events[i];
      var w := Window(box.events, key);
      forall e
        ensures e in w <==> e in box.events && KeyOf(e) == key
      {
        WindowMember(box.events, key, e);
      }
      assert ValidMark(r.box.marks[key]);
      RetiredSession(hash, w, m, key, x, a.hash);
      forall e
        ensures e in r.box.events ==> e in box.events
      {
        RemainingMember(box.events, key, a.sequence, e);
      }
      forall k | k in r.box.marks
        ensures SessionKey(r.box.marks[k].owner) == k && SessionOk(hash, Window(r.box.events, k), r.box.marks[k])
      {
        RemainingWindow(box.events, key, a.sequence, k);
      }
    }
  }

  /** The mark only moves for a stored event; a boundary is verified and left as it is. */
  lemma BoundaryMovesNothing(hash: Hash, box: Outbox, key: Key, a: Ack, written: bool)
    requires OutboxOk(hash, box) && FindSlot(box.events, key, a.sequence) == |box.events|
    ensures var r := RetireBoundary(hash, box, key, a, written);
            r.box == box &&
            (r.ok ==> key in box.marks && a.sequence == box.marks[key].acked && a.hash == box.marks[key].ackedHash)
  {
    hide OutboxOk;
    if key in box.marks {
      SlotFilled(hash, box, key, a.sequence);
    }
  }

  lemma AcknowledgeKeeps(hash: Hash, box: Outbox, a: Ack, written: bool)
    requires OutboxOk(hash, box)
    ensures OutboxOk(hash, Acknowledged(hash, box, a, written).box)
  {
    hide OutboxOk, RetireStored, RetireBoundary, Selected;
    var selected := Selected(hash, box, a);
    if a.sequence != 0 && selected.Some? {
      var i := FindSlot(box.events, selected.value, a.sequence);
      if i < |box.events| {
        RetireStoredKeeps(hash, box, selected.value, i, a, written);
      } else {
        BoundaryMovesNothing(hash, box, selected.value, a, written);
      }
    }
  }

  // ---- what an acknowledgement retires ----

  /** The hash of an acknowledgement was compared with the event at its sequence, or with the acknowledged boundary. */
  ghost predicate Verified(hash: Hash, box: Outbox, key: Key, a: Ack) {
    (exists e :: e in box.events && KeyOf(e) == key && EventNamed(hash, e, a)) ||
    (key in box.marks && a.sequence == box.marks[key].acked && a.hash == box.marks[key].ackedHash)
  }

  lemma BoundaryRetires(hash: Hash, box: Outbox, key: Key, a: Ack, written: bool)
    requires OutboxOk(hash, box) && FindSlot(box.events, key, a.sequence) == |box.events|
    requires RetireBoundary(hash, box, key, a, written).ok
    ensures key in box.marks && RetireBoundary(hash, box, key, a, written).box == box
    ensures Verified(hash, box, key, a) && Remaining(box.events, key, a.sequence) == box.events
  {
    hide OutboxOk, RetireBoundary, KeyOf, EventNamed;
    BoundaryMovesNothing(hash, box, key, a, written);
    forall e | e in box.events && KeyOf(e) == key
      ensures e.sequence > a.sequence
    {
      SlotInWindow(hash, box, e);
    }
    NothingRemoved(box.events, key, a.sequence);
  }

  lemma {:induction false} NothingRemoved(events: seq<Event>, key: Key, sequence: nat)
    requires forall e :: e in events && KeyOf(e) == key ==> e.sequence > sequence
    ensures Remaining(events, key, sequence) == events
  {
    hide KeyOf;
    if events != [] {
      NothingRemoved(events[1..], key, sequence);
    }
  }

  /** The session an effective acknowledgement belongs to. */
  ghost function SessionOf(hash: Hash, box: Outbox, a: Ack, written: bool): Key
    requires Acknowledged(hash, box, a, written).ok
  {
    Selected(hash, box, a).value
  }

  /**
   * An acknowledgement that fails changes nothing. One that succeeds was verified by hash against exactly one session
   * and takes out exactly the events of that session up to its sequence.
   */
  lemma AckRetiresExactly(hash: Hash, box: Outbox, a: Ack, written: bool)
    requires OutboxOk(hash, box)
    ensures var r := Acknowledged(hash, box, a, written);
            if r.ok then
              var key := SessionOf(hash, box, a, written);
              && key in box.marks && Verified(hash, box, key, a)
              && r.box.events == Remaining(box.events, key, a.sequence)
              && r.box.marks.Keys == box.marks.Keys && r.box.marks[key].acked >= a.sequence
              && forall k :: k in box.marks && k != key ==> r.box.marks[k] == box.marks[k]
            else r.box == box
  {
    hide OutboxOk, RetireBoundary, KeyOf, Selected;
    var r := Acknowledged(hash, box, a, written);
    var selected := Selected(hash, box, a);
    if a.sequence != 0 && selected.Some? {
      var i := FindSlot(box.events, selected.value, a.sequence);
      if i == |box.events| {
        BoundaryMovesNothing(hash, box, selected.value, a, written);
        if r.ok {
          BoundaryRetires(hash, box, selected.value, a, written);
        }
      } else if r.ok {
        SelectedSession(hash, box, a);
        SlotInWindow(hash, box, box.events[i]);
        assert EventNamed(hash, box.events[i], a);
      }
    }
  }

  lemma SelectedSession(hash: Hash, box: Outbox, a: Ack)
    requires OutboxOk(hash, box) && Selected(hash, box, a).Some?
    ensures forall e :: e in box.events && KeyOf(e) == Selected(hash, box, a).value ==> e.sessionId == a.sessionId
    ensures forall e :: e in box.events && EventNamed(hash, e, a) ==> KeyOf(e) == Selected(hash, box, a).value
  {
    hide KeyOf, Validates, SessionOk, Encodable, SessionKey;
    var key := Selected(hash, box, a).value;
    forall e | e in box.events && EventNamed(hash, e, a)
      ensures KeyOf(e) == key
    {
      assert KeyOf(e) in Exact(hash, box, a);
    }
    forall e | e in box.events && KeyOf(e) == key
      ensures e.sessionId == a.sessionId
    {
      KeyHasSession(hash, box, a, e);
    }
  }

  /** The events of one session share its session id. */
  lemma KeyHasSession(hash: Hash, box: Outbox, a: Ack, e: Event)
    requires OutboxOk(hash, box) && e in box.events
    requires KeyOf(e) in Exact(hash, box, a) + Candidates(box, a)
    ensures e.sessionId == a.sessionId
  {
    hide OutboxOk, KeyOf;
    var key := KeyOf(e);
    SlotInWindow(hash, box, e);
    assert OwnerOf(e).sessionId == e.sessionId;
    forall x | x in box.events && KeyOf(x) == key
      ensures x.sessionId == e.sessionId
    {
      SlotInWindow(hash, box, x);
      assert OwnerOf(x).sessionId == x.sessionId;
    }
  }

  /** Once an acknowledgement has succeeded, no stored event carries its session, sequence and hash. */
  lemma NamedIsGone(hash: Hash, box: Outbox, a: Ack, written: bool)
    requires OutboxOk(hash, box) && Acknowledged(hash, box, a, written).ok
    ensures forall e :: e in Acknowledged(hash, box, a, written).box.events ==> !Names(hash, a, e)
  {
    hide OutboxOk, KeyOf, Selected, Acknowledged;
    AckRetiresExactly(hash, box, a, written);
    var r := Acknowledged(hash, box, a, written);
    AckSelects(hash, box, a, written);
    var key := SessionOf(hash, box, a, written);
    forall e | e in r.box.events && Names(hash, a, e)
      ensures false
    {
      RemainingMember(box.events, key, a.sequence, e);
      HashedWhenStored(hash, box, e);
      SelectedSession(hash, box, a);
    }
  }

  lemma AckSelects(hash: Hash, box: Outbox, a: Ack, written: bool)
    requires Acknowledged(hash, box, a, written).ok
    ensures Selected(hash, box, a) == Some(SessionOf(hash, box, a, written)) && a.sequence > 0
  {
    hide Selected, RetireStored, RetireBoundary;
  }

  lemma HashedWhenStored(hash: Hash, box: Outbox, e: Event)
    requires OutboxOk(hash, box) && e in box.events
    ensures hash(e) == Some(HashField(hash, e))
  {
  }

  /**
   * An acknowledgement retires nothing but the event at its own sequence exactly when no earlier event of the session
   * is still stored.
   */
  lemma RetiresOneIff(hash: Hash, box: Outbox, a: Ack, written: bool)
    requires OutboxOk(hash, box) && Acknowledged(hash, box, a, written).ok
    ensures (forall e :: e in box.events && e !in Acknowledged(hash, box, a, written).box.events ==>
                           e.sequence == a.sequence) <==>
            a.sequence <= box.marks[SessionOf(hash, box, a, written)].acked + 1
  {
    hide OutboxOk, KeyOf, Selected, Acknowledged, SessionOf;
    AckRetiresExactly(hash, box, a, written);
    var key := SessionOf(hash, box, a, written);
    var r := Acknowledged(hash, box, a, written);
    var acked := box.marks[key].acked;
    forall e
      ensures e in r.box.events <==> e in box.events && !(KeyOf(e) == key && e.sequence <= a.sequence)
    {
      RemainingMember(box.events, key, a.sequence, e);
    }
    if a.sequence <= acked + 1 {
      forall e | e in box.events && e !in r.box.events
        ensures e.sequence == a.sequence
      {
        SlotInWindow(hash, box, e);
      }
    } else {
      VerifiedIsStored(hash, box, key, a);
      SlotOfWindow(hash, box, key, acked + 1);
      var e :| e in box.events && KeyOf(e) == key && e.sequence == acked + 1;
      assert e !in r.box.events;
    }
  }

  lemma VerifiedIsStored(hash: Hash, box: Outbox, key: Key, a: Ack)
    requires OutboxOk(hash, box) && key in box.marks && Verified(hash, box, key, a)
    ensures a.sequence <= box.marks[key].highest
  {
    hide KeyOf, OutboxOk;
    if e :| e in box.events && KeyOf(e) == key && EventNamed(hash, e, a) {
      SlotInWindow(hash, box, e);
    } else {
      MarkOrdered(hash, box, key);
    }
  }

  lemma MarkOrdered(hash: Hash, box: Outbox, key: Key)
    requires OutboxOk(hash, box) && key in box.marks
    ensures box.marks[key].acked <= box.marks[key].highest
  {
    hide KeyOf;
  }

  // ---- runs ----

  datatype Step = Put(event: Event, written: bool) | Retire(ack: Ack, written: bool)

  ghost function Take(hash: Hash, box: Outbox, step: Step): Outbox {
    match step
    case Put(e, written) => Enqueued(hash, box, e, written).box
    case Retire(a, written) => Acknowledged(hash, box, a, written).box
  }

  ghost function Run(hash: Hash, box: Outbox, steps: seq<Step>): Outbox
    decreases |steps|
  {
    if steps == [] then box else Run(hash, Take(hash, box, steps[0]), steps[1..])
  }

  lemma TakeKeeps(hash: Hash, box: Outbox, step: Step)
    requires OutboxOk(hash, box)
    ensures OutboxOk(hash, Take(hash, box, step))
  {
    hide OutboxOk, Enqueued, Acknowledged;
    match step {
      case Put(e, written) => EnqueueKeeps(hash, box, e, written);
      case Retire(a, written) => AcknowledgeKeeps(hash, box, a, written);
    }
  }

  /** Whatever is stored, rebased and acknowledged, and whichever writes fail, every session stays one hash chain. */
  lemma {:induction false} RunKeeps(hash: Hash, box: Outbox, steps: seq<Step>)
    requires OutboxOk(hash, box)
    ensures OutboxOk(hash, Run(hash, box, steps))
    decreases |steps|
  {
    hide OutboxOk, Take;
    if steps != [] {
      TakeKeeps(hash, box, steps[0]);
      RunKeeps(hash, Take(hash, box, steps[0]), steps[1..]);
    }
  }

  lemma EmptyOk(hash: Hash)
    ensures OutboxOk(hash, EMPTY)
  {
  }

  /** The answer is stored, possibly with another predecessor hash. */
  ghost predicate Holds(box: Outbox, e: Event) {
    exists x :: x in box.events && SameBody(e, x)
  }

  /** Its session has been acknowledged at least up to the answer. */
  predicate Settled(box: Outbox, key: Key, sequence: nat) {
    key in box.marks && box.marks[key].acked >= sequence
  }

  lemma EnqueueFrame(hash: Hash, box: Outbox, e: Event, written: bool)
    requires OutboxOk(hash, box)
    ensures var r := Enqueued(hash, box, e, written);
            && (forall x :: x in box.events ==> Holds(r.box, x))
            && (forall k :: k in box.marks ==> k in r.box.marks && r.box.marks[k].acked == box.marks[k].acked)
  {
    hide OutboxOk, KeyOf, Validates, SameBody, Rebase, Encodable, Holds, Append, FindSlot;
    HoldsAtLeast(box, box);
    HoldsAtLeast(box, box.(events := box.events + [e]));
    forall mark
      ensures var r := Append(hash, box, e, mark, written);
              r.box == box || (r.box.events == box.events + [e] && r.box.marks == box.marks[KeyOf(e) := mark])
    {
      AppendFrame(hash, box, e, mark, written);
    }
    forall more: Outbox | more.events == box.events + [e]
      ensures forall x :: x in box.events ==> Holds(more, x)
    {
      HoldsAtLeast(box, more);
    }
    var i := FindSlot(box.events, KeyOf(e), e.sequence);
    if Validates(e) && hash(e).Some? && i < |box.events| && SameBody(box.events[i], e) && KeyOf(e) in box.marks {
      RebaseKeeps(hash, box, i, e, written);
      RebaseFrame(hash, box, i, e, written);
      var rebased := Rebase(hash, box, i, e, written);
      if rebased.ok {
        BodiesHeld(box, rebased.box, KeyOf(e));
      }
    }
  }

  lemma HoldsAtLeast(box: Outbox, more: Outbox)
    requires forall x :: x in box.events ==> x in more.events
    ensures forall x :: x in box.events ==> Holds(more, x)
  {
    hide SameBody;
    SameAsItself();
  }

  lemma AppendFrame(hash: Hash, box: Outbox, e: Event, mark: Mark, written: bool)
    ensures var r := Append(hash, box, e, mark, written);
            r.box == box || (r.box.events == box.events + [e] && r.box.marks == box.marks[KeyOf(e) := mark])
  {
    hide Encodable, KeyOf;
  }

  lemma RebaseFrame(hash: Hash, box: Outbox, i: nat, e: Event, written: bool)
    requires i < |box.events| && KeyOf(e) in box.marks
    ensures var r := Rebase(hash, box, i, e, written);
            (!r.ok ==> r.box == box) &&
            forall k :: k in box.marks ==> k in r.box.marks && r.box.marks[k].acked == box.marks[k].acked
  {
    hide KeyOf, Encodable, Rechain, Rebases, Window;
  }

  lemma SameAsItself()
    ensures forall x :: SameBody(x, x)
  {
  }

  lemma BodiesHeld(box: Outbox, more: Outbox, key: Key)
    requires BodiesKept(box.events, more.events, key)
    ensures forall x :: x in box.events ==> Holds(more, x)
  {
    hide KeyOf, SameBody;
    forall x | x in box.events
      ensures Holds(more, x)
    {
      var i :| 0 <= i < |box.events| && box.events[i] == x;
      assert more.events[i] in more.events;
    }
  }

  /** One step keeps every stored answer, or acknowledges it. */
  lemma TakeHolds(hash: Hash, box: Outbox, step: Step, e: Event)
    requires OutboxOk(hash, box) && (Holds(box, e) || Settled(box, KeyOf(e), e.sequence))
    ensures Holds(Take(hash, box, step), e) || Settled(Take(hash, box, step), KeyOf(e), e.sequence)
  {
    hide OutboxOk, KeyOf, SameBody, Enqueued, Acknowledged;
    match step {
      case Put(x, written) =>
        EnqueueFrame(hash, box, x, written);
        if Holds(box, e) {
          var y :| y in box.events && SameBody(e, y);
          var z :| z in Enqueued(hash, box, x, written).box.events && SameBody(y, z);
          SameThrough(e, y, z);
        }
      case Retire(a, written) =>
        AckRetiresExactly(hash, box, a, written);
        var r := Acknowledged(hash, box, a, written);
        if r.ok {
          AckOnlyGrows(hash, box, a, written);
          if Holds(box, e) {
            var y :| y in box.events && SameBody(e, y);
            BodyKey(e, y);
            RemainingMember(box.events, SessionOf(hash, box, a, written), a.sequence, y);
          }
        }
    }
  }

  lemma SameThrough(a: Event, b: Event, c: Event)
    requires SameBody(a, b) && SameBody(b, c)
    ensures SameBody(a, c)
  {
  }

  lemma AckOnlyGrows(hash: Hash, box: Outbox, a: Ack, written: bool)
    requires OutboxOk(hash, box)
    ensures forall k :: k in box.marks ==>
              k in Acknowledged(hash, box, a, written).box.marks &&
              Acknowledged(hash, box, a, written).box.marks[k].acked >= box.marks[k].acked
  {
    hide OutboxOk, KeyOf, Selected, Encodable, RetireBoundary;
    var selected := Selected(hash, box, a);
    if a.sequence != 0 && selected.Some? {
      var i := FindSlot(box.events, selected.value, a.sequence);
      if i == |box.events| {
        BoundaryMovesNothing(hash, box, selected.value, a, written);
      }
    }
  }

  /**
   * No answer is lost: over every run, with every pattern of failing writes, a stored answer stays stored with the same
   * body until its session is acknowledged up to it.
   */
  lemma {:induction false} AnswersNeverLost(hash: Hash, box: Outbox, steps: seq<Step>, e: Event)
    requires OutboxOk(hash, box) && (Holds(box, e) || Settled(box, KeyOf(e), e.sequence))
    ensures var last := Run(hash, box, steps);
            Holds(last, e) || Settled(last, KeyOf(e), e.sequence)
    decreases |steps|
  {
    hide OutboxOk, Take, Holds, Settled, KeyOf;
    if steps != [] {
      TakeKeeps(hash, box, steps[0]);
      TakeHolds(hash, box, steps[0], e);
      AnswersNeverLost(hash, Take(hash, box, steps[0]), steps[1..], e);
    }
  }

  lemma TakeSettled(hash: Hash, box: Outbox, step: Step, key: Key, sequence: nat)
    requires OutboxOk(hash, box) && Settled(box, key, sequence)
    ensures Settled(Take(hash, box, step), key, sequence)
  {
    hide OutboxOk, KeyOf, Enqueued, Acknowledged;
    match step {
      case Put(x, written) => EnqueueFrame(hash, box, x, written);
      case Retire(a, written) => AckOnlyGrows(hash, box, a, written);
    }
  }

  /** What is acknowledged is never stored again: later runs hold no event of the session up to that sequence. */
  lemma {:induction false} RetiredForGood(hash: Hash, box: Outbox, steps: seq<Step>, key: Key, sequence: nat, e: Event)
    requires OutboxOk(hash, box) && Settled(box, key, sequence)
    requires e in Run(hash, box, steps).events && KeyOf(e) == key
    ensures e.sequence > sequence
    decreases |steps|
  {
    hide OutboxOk, Take, KeyOf;
    if steps == [] {
      SlotInWindow(hash, box, e);
    } else {
      TakeKeeps(hash, box, steps[0]);
      TakeSettled(hash, box, steps[0], key, sequence);
      RetiredForGood(hash, Take(hash, box, steps[0]), steps[1..], key, sequence, e);
    }
  }

  /** An answer the outbox accepts is stored, or was already acknowledged under the same hash. */
  lemma AcceptedIsStored(hash: Hash, box: Outbox, e: Event, written: bool)
    requires OutboxOk(hash, box) && Enqueued(hash, box, e, written).ok
    ensures var after := Enqueued(hash, box, e, written).box;
            || (exists x :: x in after.events && KeyOf(x) == KeyOf(e) && x.sequence == e.sequence &&
                            (x == e || hash(x) == hash(e)))
            || (Settled(after, KeyOf(e), e.sequence) && hash(e) == Some(after.marks[KeyOf(e)].lastHash))
  {
    hide OutboxOk, KeyOf, Validates, SameBody, Rechain, Rebases;
    var after := Enqueued(hash, box, e, written).box;
    var i := FindSlot(box.events, KeyOf(e), e.sequence);
    if i < |box.events| {
      if hash(box.events[i]) != hash(e) {
        assert after.events[i] == e;
      }
    } else if KeyOf(e) in box.marks {
      SlotFilled(hash, box, KeyOf(e), e.sequence);
      if e.sequence > box.marks[KeyOf(e)].highest {
        assert after.events[|after.events| - 1] == e;
      }
    } else {
      assert after.events[|after.events| - 1] == e;
    }
  }

  // ---- reading the file back ----

  function Insert(e: Event, s: seq<Event>): seq<Event> {
    if s == [] || e.sequence <= s[0].sequence then [e] + s else [s[0]] + Insert(e, s[1..])
  }

  function Sorted(s: seq<Event>): seq<Event> {
    if s == [] then [] else Insert(s[0], Sorted(s[1..]))
  }

  /** The loader's checks of the pending events of one session against its watermark. */
  predicate PendingLoads(hash: Hash, p: seq<Event>, m: Mark)
    requires p != []
  {
    var last := p[|p| - 1];
    && (forall i :: 0 <= i < |p| - 1 ==> !p[i].finalize) && last.finalize == m.finalized
    && m.acked != U64_MAX && m.acked + 1 == p[0].sequence
    && (if m.acked == 0 then !HasNonzero(p[0].previous) else p[0].previous == m.ackedHash)
    && (forall i :: 1 <= i < |p| ==> Follows(hash, p[i - 1], p[i]))
    && last.sequence == m.highest && hash(last) == Some(m.lastHash)
  }

  predicate Follows(hash: Hash, a: Event, b: Event) {
    a.sequence != U64_MAX && b.sequence == a.sequence + 1 && hash(a) == Some(b.previous)
  }

  /** The loader's checks of a file of the current version in which every pending event has a watermark. */
  predicate Loads(hash: Hash, box: Outbox) {
    && |box.events| <= MAX_EVENTS && |box.marks| <= MAX_MARKS
    && (forall k :: k in box.marks ==> ValidMark(box.marks[k]) && SessionKey(box.marks[k].owner) == k)
    && (forall i :: 0 <= i < |box.events| ==> RecordLoads(hash, box, i))
    && (forall k :: k in box.marks ==>
          var p := Sorted(Window(box.events, k));
          var m := box.marks[k];
          if p == [] then m.acked == m.highest && m.ackedHash == m.lastHash else PendingLoads(hash, p, m))
  }

  predicate RecordLoads(hash: Hash, box: Outbox, i: nat)
    requires i < |box.events|
  {
    var e := box.events[i];
    && Validates(e) && hash(e).Some? && KeyOf(e) in box.marks
    && box.marks[KeyOf(e)].owner == OwnerOf(e) && e.sequence <= box.marks[KeyOf(e)].highest
    && forall j :: 0 <= j < i ==> KeyOf(box.events[j]) != KeyOf(e) || box.events[j].sequence != e.sequence
  }

  lemma {:induction false} ChainIsSorted(hash: Hash, w: seq<Event>, h: Bytes32, n: nat)
    requires Chained(hash, w, h, n)
    ensures Sorted(w) == w
  {
    if w != [] {
      ChainIsSorted(hash, w[1..], hash(w[0]).value, n + 1);
      assert w == [w[0]] + w[1..];
    }
  }

  lemma PendingIsAccepted(hash: Hash, w: seq<Event>, m: Mark)
    requires SessionOk(hash, w, m) && w != []
    ensures PendingLoads(hash, w, m)
  {
    hide Chained;
    var n := |w| - 1;
    ChainedAt(hash, w, m.ackedHash, m.acked, 0);
    ChainedAt(hash, w, m.ackedHash, m.acked, n);
    if m.acked == 0 {
      assert w[0].previous == m.ackedHash;
    }
    forall i | 1 <= i < |w|
      ensures Follows(hash, w[i - 1], w[i])
    {
      ChainedAt(hash, w, m.ackedHash, m.acked, i - 1);
      ChainedAt(hash, w, m.ackedHash, m.acked, i);
      assert w[..i][i - 1] == w[i - 1];
    }
  }

  /** Two stored events of one session have different sequences. */
  lemma OneSlotEach(hash: Hash, box: Outbox, j: nat, i: nat)
    requires OutboxOk(hash, box) && j < i < |box.events| && KeyOf(box.events[j]) == KeyOf(box.events[i])
    ensures box.events[j].sequence != box.events[i].sequence
  {
    hide KeyOf, Validates, ValidMark, Finals, Encodable, Window, Chained;
    var key := KeyOf(box.events[i]);
    var m := box.marks[key];
    var a, b := Window(box.events[..i], key), Window(box.events[i + 1..], key);
    WindowSplit(box.events, i, key);
    var w := a + [box.events[i]] + b;
    assert box.events[..i][j] == box.events[j];
    WindowMember(box.events[..i], key, box.events[j]);
    var k :| 0 <= k < |a| && a[k] == box.events[j];
    assert w[k] == box.events[j] && w[|a|] == box.events[i];
    ChainedAt(hash, w, m.ackedHash, m.acked, k);
    ChainedAt(hash, w, m.ackedHash, m.acked, |a|);
  }

  lemma OkLoads(hash: Hash, box: Outbox)
    requires OutboxOk(hash, box)
    ensures Loads(hash, box)
  {
    hide KeyOf, Validates, PendingLoads, Window, Chained, Finals, Sorted;
    forall i | 0 <= i < |box.events|
      ensures RecordLoads(hash, box, i)
    {
      SlotInWindow(hash, box, box.events[i]);
      forall j | 0 <= j < i && KeyOf(box.events[j]) == KeyOf(box.events[i])
        ensures box.events[j].sequence != box.events[i].sequence
      {
        OneSlotEach(hash, box, j, i);
      }
    }
    forall k | k in box.marks
      ensures var p := Sorted(Window(box.events, k));
              var m := box.marks[k];
              if p == [] then m.acked == m.highest && m.ackedHash == m.lastHash else PendingLoads(hash, p, m)
    {
      var m, w := box.marks[k], Window(box.events, k);
      ChainIsSorted(hash, w, m.ackedHash, m.acked);
      if w != [] {
        PendingIsAccepted(hash, w, m);
      }
    }
  }

  /** Whatever was stored, rebased and acknowledged before, the file opens again. */
  lemma ReopenAccepts(hash: Hash, steps: seq<Step>)
    ensures Loads(hash, Run(hash, EMPTY, steps))
  {
    hide Run, OutboxOk;
    EmptyOk(hash);
    RunKeeps(hash, EMPTY, steps);
    OkLoads(hash, Run(hash, EMPTY, steps));
  }

  // ---- the outbox as the service runs it ----

  /** A chain found in the rest of a sequence, behind what was already rewritten. */
  function Behind(done: seq<Event>, c: Option<Chain>): Option<Chain> {
    if c.None? then None else Some(Chain(done + c.value.events, c.value.last))
  }

  lemma BehindNothing(c: Option<Chain>)
    ensures Behind([], c) == c
  {
    if c.Some? {
      assert [] + c.value.events == c.value.events;
    }
  }

  lemma BehindOne(done: seq<Event>, x: Event, c: Option<Chain>)
    ensures Behind(done, Behind([x], c)) == Behind(done + [x], c)
  {
    if c.Some? {
      assert done + ([x] + c.value.events) == (done + [x]) + c.value.events;
    }
  }

  lemma NoChain(done: seq<Event>)
    ensures Behind(done, None) == None
  {
  }

  lemma WholeChain(hash: Hash, done: seq<Event>, key: Key, last: Event)
    ensures Behind(done, Rechain(hash, [], key, last)) == Some(Chain(done, last))
  {
    assert done + [] == done;
  }

  /** One event of the sequence is kept, rewritten or refused. */
  lemma RechainOne(hash: Hash, s: seq<Event>, key: Key, last: Event)
    requires s != []
    ensures Rechain(hash, s, key, last) ==
            if KeyOf(s[0]) != key then Behind([s[0]], Rechain(hash, s[1..], key, last))
            else if last.sequence == U64_MAX || s[0].sequence != last.sequence + 1 || hash(last).None? then None
            else
              var next := s[0].(previous := hash(last).value);
              Behind([next], Rechain(hash, s[1..], key, next))
  {
    hide KeyOf;
  }

  lemma RemainingConcat(a: seq<Event>, e: Event, key: Key, sequence: nat)
    ensures Remaining(a + [e], key, sequence) ==
            Remaining(a, key, sequence) + if KeyOf(e) == key && e.sequence <= sequence then [] else [e]
  {
    hide KeyOf;
    if a == [] {
      assert a + [e] == [e];
    } else {
      assert (a + [e])[1..] == a[1..] + [e];
      RemainingConcat(a[1..], e, key, sequence);
    }
  }

  class DurableOutbox {
    const hash: Hash
    var events: seq<Event>
    var marks: map<Key, Mark>

    ghost function View(): Outbox
      reads this
    {
      Outbox(events, marks)
    }

    constructor (hash: Hash)
      ensures View() == EMPTY && this.hash == hash
    {
      this.hash := hash;
      events, marks := [], map[];
    }

    method SlotOf(key: Key, sequence: nat) returns (i: nat)
      ensures i == FindSlot(events, key, sequence)
    {
      hide KeyOf;
      for j := 0 to |events|
        invariant FindSlot(events, key, sequence) == j + FindSlot(events[j..], key, sequence)
      {
        if KeyOf(events[j]) == key && events[j].sequence == sequence {
          return j;
        }
        assert events[j..][1..] == events[j + 1..];
      }
      return |events|;
    }

    method EncodableBox(candidate: Outbox) returns (ok: bool)
      ensures ok == Encodable(hash, candidate)
    {
      ok := |candidate.events| <= MAX_EVENTS && |candidate.marks| <= MAX_MARKS;
      for j := 0 to |candidate.events|
        invariant ok <==> |candidate.events| <= MAX_EVENTS && |candidate.marks| <= MAX_MARKS &&
                          forall i :: 0 <= i < j ==> hash(candidate.events[i]).Some?
      {
        ok := ok && hash(candidate.events[j]).Some?;
      }
      var todo := candidate.marks.Keys;
      ghost var hashed := ok;
      while todo != {}
        invariant todo <= candidate.marks.Keys
        invariant ok <==> hashed && forall k :: k in candidate.marks.Keys - todo ==> ValidMark(candidate.marks[k])
      {
        var k :| k in todo;
        todo := todo - {k};
        ok := ok && ValidMark(candidate.marks[k]);
      }
      assert candidate.marks.Keys - {} == candidate.marks.Keys;
    }

    method Save(candidate: Outbox, written: bool) returns (ok: bool)
      modifies this
      ensures Result(View(), ok) == Commit(hash, old(View()), candidate, written)
    {
      ok := EncodableBox(candidate);
      ok := ok && written;
      if ok {
        events, marks := candidate.events, candidate.marks;
      }
    }

    /** Rewrites the predecessor hashes of what follows a rebased event in its session. */
    method RechainAfter(i: nat, e: Event) returns (chain: Option<Chain>)
      requires i < |events|
      ensures chain == Rechain(hash, events[i + 1..], KeyOf(e), e)
    {
      hide KeyOf, Rechain, Behind;
      var last, rewritten := e, [];
      BehindNothing(Rechain(hash, events[i + 1..], KeyOf(e), e));
      for j := i + 1 to |events|
        invariant Rechain(hash, events[i + 1..], KeyOf(e), e) ==
                  Behind(rewritten, Rechain(hash, events[j..], KeyOf(e), last))
      {
        var x := events[j];
        assert events[j..][0] == x && events[j..][1..] == events[j + 1..];
        RechainOne(hash, events[j..], KeyOf(e), last);
        if KeyOf(x) == KeyOf(e) {
          if last.sequence == U64_MAX || x.sequence != last.sequence + 1 || hash(last).None? {
            NoChain(rewritten);
            return None;
          }
          x := x.(previous := hash(last).value);
          last := x;
        }
        BehindOne(rewritten, x, Rechain(hash, events[j + 1..], KeyOf(e), last));
        rewritten := rewritten + [x];
      }
      WholeChain(hash, rewritten, KeyOf(e), last);
      assert events[|events|..] == [];
      return Some(Chain(rewritten, last));
    }

    method EarlierInSession(i: nat, key: Key) returns (before: seq<Event>)
      requires i <= |events|
      ensures before == Window(events[..i], key)
    {
      hide KeyOf, Window;
      before := [];
      WindowNil(key);
      for j := 0 to i
        invariant before == Window(events[..j], key)
      {
        assert events[..j + 1] == events[..j] + ([events[j]] + []);
        WindowConcat(events[..j], [events[j]] + [], key);
        WindowCons(events[j], [], key);
        WindowNil(key);
        if KeyOf(events[j]) == key {
          before := before + [events[j]];
        }
      }
    }

    method RebaseAt(i: nat, e: Event, written: bool) returns (ok: bool)
      requires i < |events| && KeyOf(e) in marks
      modifies this
      ensures Result(View(), ok) == Rebase(hash, old(View()), i, e, written)
    {
      hide KeyOf, Rechain, Window, Encodable;
      var key := KeyOf(e);
      var before := EarlierInSession(i, key);
      if !Rebases(hash, before, marks[key], e) {
        return false;
      }
      var chain := RechainAfter(i, e);
      if chain.None? || hash(chain.value.last).None? {
        return false;
      }
      var mark := RebasedMark(marks[key], before == [], e, hash(chain.value.last).value);
      ok := Save(Outbox(events[..i] + [e] + chain.value.events, marks[key := mark]), written);
    }

    method Add(e: Event, mark: Mark, written: bool) returns (ok: bool)
      modifies this
      ensures Result(View(), ok) == Append(hash, old(View()), e, mark, written)
    {
      hide KeyOf, Encodable;
      if |events| >= MAX_EVENTS {
        return false;
      }
      ok := Save(Outbox(events + [e], marks[KeyOf(e) := mark]), written);
    }

    method Enqueue(e: Event, written: bool) returns (ok: bool)
      modifies this
      ensures Result(View(), ok) == Enqueued(hash, old(View()), e, written)
    {
      hide KeyOf, Validates, Rebase, Append, FindSlot;
      if !Validates(e) || hash(e).None? {
        return false;
      }
      var key, h := KeyOf(e), hash(e).value;
      var i := SlotOf(key, e.sequence);
      if i < |events| {
        if hash(events[i]) == hash(e) {
          return true;
        }
        if !SameBody(events[i], e) || key !in marks {
          return false;
        }
        if marks[key].finalized || e.sequence <= marks[key].acked {
          return false;
        }
        ok := RebaseAt(i, e, written);
        return;
      }
      if key !in marks {
        if e.sequence != 1 || HasNonzero(e.previous) {
          return false;
        }
        ok := Add(e, Mark(OwnerOf(e), 1, h, 0, Zeros(32), e.finalize), written);
        return;
      }
      var m := marks[key];
      if m.owner != OwnerOf(e) {
        return false;
      }
      if m.finalized || e.sequence <= m.highest {
        return e.sequence == m.highest && h == m.lastHash;
      }
      if m.highest == U64_MAX || e.sequence != m.highest + 1 || e.previous != m.lastHash {
        return false;
      }
      ok := Add(e, GrownMark(m, e, h), written);
    }

    /** The sessions an acknowledgement could mean, and those in which it names an event exactly. */
    method Sessions(a: Ack) returns (candidates: set<Key>, exact: set<Key>)
      ensures candidates == Candidates(View(), a) && exact == Exact(hash, View(), a)
    {
      hide KeyOf, MarkNamed;
      candidates, exact := {}, {};
      for j := 0 to |events|
        invariant candidates == set e | e in events[..j] && e.sessionId == a.sessionId :: KeyOf(e)
        invariant exact == set e | e in events[..j] && EventNamed(hash, e, a) :: KeyOf(e)
      {
        var e := events[j];
        assert events[..j + 1] == events[..j] + [e];
        if e.sessionId == a.sessionId {
          candidates := candidates + {KeyOf(e)};
          if EventNamed(hash, e, a) {
            exact := exact + {KeyOf(e)};
          }
        }
      }
      assert events[..|events|] == events;
      ghost var stored, named := candidates, exact;
      var todo := marks.Keys;
      while todo != {}
        invariant todo <= marks.Keys
        invariant candidates == stored + set k | k in marks.Keys - todo && marks[k].owner.sessionId == a.sessionId
        invariant exact == named + set k | k in marks.Keys - todo && MarkNamed(marks[k], a)
      {
        var k :| k in todo;
        todo := todo - {k};
        if marks[k].owner.sessionId == a.sessionId {
          candidates := candidates + {k};
        }
        if MarkNamed(marks[k], a) {
          exact := exact + {k};
        }
      }
    }

    method Select(a: Ack) returns (key: Option<Key>)
      ensures key == Selected(hash, View(), a)
    {
      hide Candidates, Exact;
      var candidates, exact := Sessions(a);
      if |exact| > 1 || (exact == {} && |candidates| != 1) {
        return None;
      }
      var choice := if exact != {} then exact else candidates;
      assert |choice| == 1;
      var k :| k in choice;
      assert choice == {Only(choice)};
      return Some(k);
    }

    method EventsAfter(key: Key, sequence: nat) returns (remaining: seq<Event>)
      ensures remaining == Remaining(events, key, sequence)
    {
      hide KeyOf, Remaining;
      remaining := [];
      NothingRemoved([], key, sequence);
      for j := 0 to |events|
        invariant remaining == Remaining(events[..j], key, sequence)
      {
        RemainingConcat(events[..j], events[j], key, sequence);
        assert events[..j + 1] == events[..j] + [events[j]];
        if !(KeyOf(events[j]) == key && events[j].sequence <= sequence) {
          remaining := remaining + [events[j]];
        }
      }
      assert events[..|events|] == events;
    }

    method Acknowledge(a: Ack, written: bool) returns (ok: bool)
      modifies this
      ensures Result(View(), ok) == Acknowledged(hash, old(View()), a, written)
    {
      hide KeyOf, FindSlot, Selected, Remaining, Encodable;
      if a.sequence == 0 {
        return false;
      }
      var selected := Select(a);
      if selected.None? || selected.value !in marks {
        return false;
      }
      var key := selected.value;
      var m := marks[key];
      var i := SlotOf(key, a.sequence);
      if i == |events| {
        if a.sequence > m.highest {
          return false;
        }
        if a.sequence == m.acked {
          return a.hash == m.ackedHash;
        }
        if a.sequence < m.acked || a.sequence != m.highest || a.hash != m.lastHash {
          return false;
        }
        ok := Save(Outbox(events, marks[key := AckedMark(m, a.sequence, m.lastHash)]), written);
        return;
      }
      if hash(events[i]) != Some(a.hash) || a.sequence > m.highest || a.sequence <= m.acked {
        return false;
      }
      var remaining := EventsAfter(key, a.sequence);
      ok := Save(Outbox(remaining, marks[key := AckedMark(m, a.sequence, a.hash)]), written);
    }
  }
}
