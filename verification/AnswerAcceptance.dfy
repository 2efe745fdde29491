/** Which answers and which acknowledgements the answer outbox accepts, and what it stores then. */
module AnswerAcceptance {
  import opened Bytes
  import opened AnswerEvents
  import opened AnswerOutbox

  // ---- what a session shows ----

  /** An event of the session with this sequence is stored under the same hash. */
  ghost predicate IsStored(hash: Hash, box: Outbox, e: Event) {
    exists x :: x in Window(box.events, KeyOf(e)) && x.sequence == e.sequence && hash(x) == hash(e)
  }

  /** The newest event the session has ever had, sent again. */
  predicate IsNewest(hash: Hash, box: Outbox, e: Event) {
    KeyOf(e) in box.marks &&
    var m := box.marks[KeyOf(e)];
    m.owner == OwnerOf(e) && e.sequence == m.highest && hash(e) == Some(m.lastHash)
  }

  /** The first event of a session, or the next one after the newest. */
  predicate Extends(box: Outbox, e: Event) {
    if KeyOf(e) !in box.marks then e.sequence == 1 && !HasNonzero(e.previous)
    else
      var m := box.marks[KeyOf(e)];
      m.owner == OwnerOf(e) && !m.finalized && e.sequence == m.highest + 1 && e.previous == m.lastHash
  }

  predicate HasSpace(box: Outbox, e: Event) {
    |box.events| < MAX_EVENTS && (KeyOf(e) in box.marks || |box.marks| < MAX_MARKS)
  }

  predicate HashIsNonzero(hash: Hash, e: Event) {
    match hash(e)
    case None => false
    case Some(h) => HasNonzero(h)
  }

  /** Stored event number `k` of an unfinalized session, with a predecessor that fits what is before it. */
  ghost predicate Rejoins(hash: Hash, box: Outbox, e: Event, k: nat) {
    var w := Window(box.events, KeyOf(e));
    && KeyOf(e) in box.marks && !box.marks[KeyOf(e)].finalized && k < |w| && SameBody(w[k], e)
    && if k == 0 then e.sequence == 1 <==> !HasNonzero(e.previous) else hash(w[k - 1]) == Some(e.previous)
  }

  /** `v` is `e` and after it the events of `tail`, each naming the hash of the one before it. */
  ghost predicate Relinked(hash: Hash, e: Event, tail: seq<Event>, v: seq<Event>) {
    && |v| == |tail| + 1 && v[0] == e
    && (forall i :: 0 <= i < |v| ==> hash(v[i]).Some?)
    && forall i :: 0 <= i < |tail| ==> v[i + 1] == tail[i].(previous := HashField(hash, v[i]))
  }

  ghost predicate Rebased(hash: Hash, box: Outbox, e: Event, k: nat, v: seq<Event>) {
    && Rejoins(hash, box, e, k) && Relinked(hash, e, Window(box.events, KeyOf(e))[k + 1..], v)
    && HashIsNonzero(hash, v[|v| - 1])
  }

  // ---- relinking ----

  lemma RelinkedCons(hash: Hash, last: Event, x: Event, tail: seq<Event>, v: seq<Event>)
    requires hash(last).Some? && Relinked(hash, x.(previous := hash(last).value), tail, v)
    ensures Relinked(hash, last, [x] + tail, [last] + v)
  {
  }

  lemma RelinkedTail(hash: Hash, last: Event, x: Event, tail: seq<Event>, v: seq<Event>)
    requires Relinked(hash, last, [x] + tail, v)
    ensures hash(last).Some? && Relinked(hash, x.(previous := hash(last).value), tail, v[1..])
  {
    var w := v[1..];
    assert v[1] == ([x] + tail)[0].(previous := HashField(hash, v[0]));
    forall i | 0 <= i < |tail|
      ensures w[i + 1] == tail[i].(previous := HashField(hash, w[i]))
    {
      assert v[i + 2] == ([x] + tail)[i + 1].(previous := HashField(hash, v[i + 1]));
    }
  }

  /** The walk over the outbox finds the relinked session when there is one. */
  lemma {:induction false} RechainFinds(hash: Hash, events: seq<Event>, key: Key, last: Event, h: Bytes32,
                                        v: seq<Event>)
    requires Chained(hash, Window(events, key), h, last.sequence) && Relinked(hash, last, Window(events, key), v)
    requires forall e :: e in events ==> e.sequence <= U64_MAX
    ensures var c := Rechain(hash, events, key, last);
            c.Some? && c.value.last == v[|v| - 1] && [last] + Window(c.value.events, key) == v
    decreases |events|
  {
    hide KeyOf, Window, Relinked;
    if events == [] {
      WindowNil(key);
      RelinkedNothing(hash, last, v);
    } else {
      var x, tail := events[0], events[1..];
      assert events == [x] + tail;
      WindowCons(x, tail, key);
      if KeyOf(x) != key {
        RechainFinds(hash, tail, key, last, h, v);
        WindowCons(x, Rechain(hash, tail, key, last).value.events, key);
      } else {
        assert Window(events, key)[1..] == Window(tail, key);
        RelinkedTail(hash, last, x, Window(tail, key), v);
        RelinkedStarts(hash, last, Window(events, key), v);
        var next := x.(previous := hash(last).value);
        KeyIgnoresPrevious(x, hash(last).value);
        RechainFinds(hash, tail, key, next, hash(x).value, v[1..]);
        WindowCons(next, Rechain(hash, tail, key, next).value.events, key);
        assert v == [last] + v[1..];
      }
    }
  }

  lemma RelinkedNothing(hash: Hash, last: Event, v: seq<Event>)
    requires Relinked(hash, last, [], v)
    ensures v == [last]
  {
  }

  lemma RelinkedStarts(hash: Hash, last: Event, tail: seq<Event>, v: seq<Event>)
    requires Relinked(hash, last, tail, v)
    ensures |v| == |tail| + 1 && v[0] == last
  {
  }

  lemma {:induction false} RechainRelinks(hash: Hash, events: seq<Event>, key: Key, last: Event, h: Bytes32)
    returns (v: seq<Event>)
    requires Chained(hash, Window(events, key), h, last.sequence)
    requires var c := Rechain(hash, events, key, last); c.Some? && hash(c.value.last).Some?
    ensures Relinked(hash, last, Window(events, key), v)
    decreases |events|
  {
    hide KeyOf, Window, Relinked;
    if events == [] {
      WindowNil(key);
      v := [last];
      assert Relinked(hash, last, [], v) by { RelinkedOne(hash, last); }
    } else {
      var x, tail := events[0], events[1..];
      assert events == [x] + tail;
      WindowCons(x, tail, key);
      if KeyOf(x) != key {
        v := RechainRelinks(hash, tail, key, last, h);
      } else {
        assert Window(events, key)[1..] == Window(tail, key);
        var next := x.(previous := hash(last).value);
        v := RechainRelinks(hash, tail, key, next, hash(x).value);
        RelinkedCons(hash, last, x, Window(tail, key), v);
        v := [last] + v;
      }
    }
  }

  lemma RelinkedOne(hash: Hash, e: Event)
    requires hash(e).Some?
    ensures Relinked(hash, e, [], [e])
  {
  }

  // ---- a slot is taken ----

  /** The place in the window of its session of the event stored in slot `i`. */
  lemma SlotPlace(hash: Hash, box: Outbox, i: nat, key: Key) returns (k: nat)
    requires OutboxOk(hash, box) && i < |box.events| && KeyOf(box.events[i]) == key
    ensures key in box.marks
    ensures var w := Window(box.events, key);
            && k == |Window(box.events[..i], key)| < |w| && w[k] == box.events[i]
            && w[..k] == Window(box.events[..i], key)
            && w[k + 1..] == Window(box.events[i + 1..], key)
            && (forall j :: 0 <= j < |w| && w[j].sequence == w[k].sequence ==> j == k)
            && w[k].sequence == box.marks[key].acked + 1 + k
  {
    hide KeyOf, Window, Validates, Finals, ValidMark, Encodable;
    var w, m := Window(box.events, key), box.marks[key];
    WindowSplit(box.events, i, key);
    k := |Window(box.events[..i], key)|;
    forall j | 0 <= j < |w|
      ensures w[j].sequence == m.acked + 1 + j
    {
      ChainedAt(hash, w, m.ackedHash, m.acked, j);
    }
  }

  lemma MarkStays(hash: Hash, box: Outbox, mark: Mark, key: Key, events: seq<Event>)
    requires OutboxOk(hash, box) && key in box.marks && |events| <= |box.events|
    requires forall e :: e in events ==> hash(e).Some?
    ensures Encodable(hash, Outbox(events, box.marks[key := mark])) <==> ValidMark(mark)
  {
    hide SessionOk, Validates, KeyOf, SessionKey, Encodable;
    MarkReplaced(hash, box, mark, key, events);
  }

  lemma MarkReplaced(hash: Hash, box: Outbox, mark: Mark, key: Key, events: seq<Event>)
    requires Encodable(hash, box) && key in box.marks && |events| <= |box.events|
    requires forall e :: e in events ==> hash(e).Some?
    ensures Encodable(hash, Outbox(events, box.marks[key := mark])) <==> ValidMark(mark)
  {
    hide ValidMark;
    var marks := box.marks[key := mark];
    assert marks.Keys == box.marks.Keys + {key};
    CountKeys(box.marks, marks, key);
    assert marks[key] == mark && forall k :: k in marks && k != key ==> marks[k] == box.marks[k];
  }

  lemma RelinkedMark(hash: Hash, box: Outbox, e: Event, first: bool, last: Bytes32)
    requires OutboxOk(hash, box) && KeyOf(e) in box.marks
    requires first ==> e.sequence == box.marks[KeyOf(e)].acked + 1 && (e.sequence == 1 <==> !HasNonzero(e.previous))
    ensures ValidMark(RebasedMark(box.marks[KeyOf(e)], first, e, last)) <==> HasNonzero(last)
  {
    hide KeyOf, Validates, Encodable, SessionKey;
  }

  /** Every event of a rebased outbox has a hash. */
  lemma RebasedHashes(hash: Hash, box: Outbox, key: Key, more: seq<Event>)
    requires OutboxOk(hash, box) && BodiesKept(box.events, more, key)
    requires forall e :: e in Window(more, key) ==> hash(e).Some?
    ensures forall e :: e in more ==> hash(e).Some?
  {
    hide KeyOf, SameBody, SessionOk, Validates, SessionKey;
    forall e | e in more
      ensures hash(e).Some?
    {
      var j :| 0 <= j < |more| && more[j] == e;
      BodyKey(box.events[j], more[j]);
      if KeyOf(e) == key {
        WindowMember(more, key, e);
      } else {
        assert box.events[j] == e;
      }
    }
  }

  lemma SequencesBounded(hash: Hash, box: Outbox, i: nat)
    requires OutboxOk(hash, box) && i < |box.events|
    ensures forall e :: e in box.events[i + 1..] ==> e.sequence <= U64_MAX
  {
    hide KeyOf, SessionOk, SessionKey, Encodable;
    forall e | e in box.events[i + 1..]
      ensures e.sequence <= U64_MAX
    {
      assert e in box.events && Validates(e);
    }
  }

  lemma SlotSuffix(hash: Hash, box: Outbox, i: nat, key: Key)
    requires OutboxOk(hash, box) && i < |box.events| && KeyOf(box.events[i]) == key
    ensures hash(box.events[i]).Some?
    ensures Chained(hash, Window(box.events[i + 1..], key), hash(box.events[i]).value, box.events[i].sequence)
  {
    hide KeyOf, Window, Validates, SessionKey, ValidMark, Finals, Chained;
    var m := box.marks[key];
    WindowSplit(box.events, i, key);
    SuffixChain(hash, Window(box.events[..i], key), box.events[i], Window(box.events[i + 1..], key), m.ackedHash,
                m.acked);
  }

  lemma RelinkedEnds(hash: Hash, e: Event, tail: seq<Event>, v: seq<Event>)
    requires Relinked(hash, e, tail, v)
    ensures hash(v[|v| - 1]).Some?
  {
  }

  lemma RejoinsRebases(hash: Hash, box: Outbox, e: Event, k: nat)
    requires OutboxOk(hash, box) && Rejoins(hash, box, e, k)
    ensures Rebases(hash, Window(box.events, KeyOf(e))[..k], box.marks[KeyOf(e)], e)
  {
    hide KeyOf, Window, SessionKey, Finals, Encodable;
    var w, m := Window(box.events, KeyOf(e)), box.marks[KeyOf(e)];
    ChainedAt(hash, w, m.ackedHash, m.acked, k);
    WindowMember(box.events, KeyOf(e), w[k]);
    BodyKey(w[k], e);
    if k > 0 {
      assert w[..k][k - 1] == w[k - 1];
    }
  }

  lemma RebasedWindow(events: seq<Event>, i: nat, e: Event, rest: seq<Event>, key: Key)
    requires i < |events| && KeyOf(e) == key
    ensures Window(events[..i] + [e] + rest, key) == Window(events[..i], key) + ([e] + Window(rest, key))
  {
    hide KeyOf, Window;
    var more := events[..i] + [e] + rest;
    assert more[..i] == events[..i] && more[i] == e && more[i + 1..] == rest;
    WindowSplit(more, i, key);
  }

  lemma RelinkedHashes(hash: Hash, box: Outbox, e: Event, before: seq<Event>, tail: seq<Event>, v: seq<Event>, key: Key)
    requires OutboxOk(hash, box) && before <= Window(box.events, key) && Relinked(hash, e, tail, v)
    ensures forall x :: x in before + v ==> hash(x).Some?
  {
    hide KeyOf, Window, SessionOk, SessionKey, Validates;
    forall x | x in before + v
      ensures hash(x).Some?
    {
      if x in before {
        WindowMember(box.events, key, x);
      } else {
        var j :| 0 <= j < |v| && v[j] == x;
      }
    }
  }

  lemma KeptLength(a: seq<Event>, b: seq<Event>, key: Key)
    requires BodiesKept(a, b, key)
    ensures |a| == |b|
  {
  }

  /** A rebase that has been relinked is refused by nothing but the file. */
  lemma RebaseSucceeds(hash: Hash, box: Outbox, i: nat, e: Event, written: bool, k: nat, v: seq<Event>)
    requires OutboxOk(hash, box) && Validates(e) && hash(e).Some?
    requires i < |box.events| && KeyOf(box.events[i]) == KeyOf(e) && box.events[i].sequence == e.sequence
    requires Rebased(hash, box, e, k, v)
    ensures var r := Rebase(hash, box, i, e, written);
            r.ok == written && SameBody(box.events[i], e) &&
            (r.ok ==> Window(r.box.events, KeyOf(e)) == Window(box.events, KeyOf(e))[..k] + v)
  {
    hide KeyOf, Window, Validates, SessionKey, SessionOk, Rechain, Relinked, BodiesKept, RebasedMark, ValidMark,
         SameBody;
    var key := KeyOf(e);
    var w, m := Window(box.events, key), box.marks[key];
    var place := SlotPlace(hash, box, i, key);
    BodyKey(w[k], e);
    assert place == k;
    SequencesBounded(hash, box, i);
    SlotSuffix(hash, box, i, key);
    RechainFinds(hash, box.events[i + 1..], key, e, hash(box.events[i]).value, v);
    var c := Rechain(hash, box.events[i + 1..], key, e).value;
    assert hash(c.last).Some? by { RelinkedEnds(hash, e, w[k + 1..], v); }
    assert Rebases(hash, w[..k], m, e) by { RejoinsRebases(hash, box, e, k); }
    RebaseWindow(hash, box.events, i, e, m);
    var more := box.events[..i] + [e] + c.events;
    RebasedWindow(box.events, i, e, c.events, key);
    assert Window(more, key) == w[..k] + v;
    RelinkedHashes(hash, box, e, w[..k], w[k + 1..], v, key);
    RebasedHashes(hash, box, key, more);
    var mark := RebasedMark(m, w[..k] == [], e, hash(c.last).value);
    RelinkedMark(hash, box, e, w[..k] == [], hash(c.last).value);
    KeptLength(box.events, more, key);
    MarkStays(hash, box, mark, key, more);
  }

  /** A rebase succeeds only for an event that rejoins its session and can be relinked. */
  lemma RebaseNeeds(hash: Hash, box: Outbox, i: nat, e: Event, written: bool) returns (k: nat, v: seq<Event>)
    requires OutboxOk(hash, box) && Validates(e) && hash(e).Some? && KeyOf(e) in box.marks
    requires i < |box.events| && SameBody(box.events[i], e) && !box.marks[KeyOf(e)].finalized
    requires Rebase(hash, box, i, e, written).ok
    ensures written && Rebased(hash, box, e, k, v)
  {
    hide KeyOf, Window, Validates, SessionKey, SessionOk, Rechain, Relinked, BodiesKept, RebasedMark, ValidMark,
         SameBody, Rebases;
    var key := KeyOf(e);
    var w, m := Window(box.events, key), box.marks[key];
    BodyKey(box.events[i], e);
    k := SlotPlace(hash, box, i, key);
    SlotSuffix(hash, box, i, key);
    v := RechainRelinks(hash, box.events[i + 1..], key, e, hash(box.events[i]).value);
    SequencesBounded(hash, box, i);
    RechainFinds(hash, box.events[i + 1..], key, e, hash(box.events[i]).value, v);
    var c := Rechain(hash, box.events[i + 1..], key, e).value;
    RebasesRejoins(hash, box, e, k);
    var mark := RebasedMark(m, w[..k] == [], e, hash(c.last).value);
    assert ValidMark(mark) by {
      assert box.marks[key := mark][key] == mark;
    }
    RelinkedMark(hash, box, e, w[..k] == [], hash(c.last).value);
  }

  lemma RebasesRejoins(hash: Hash, box: Outbox, e: Event, k: nat)
    requires OutboxOk(hash, box) && KeyOf(e) in box.marks && !box.marks[KeyOf(e)].finalized
    requires k < |Window(box.events, KeyOf(e))| && SameBody(Window(box.events, KeyOf(e))[k], e)
    requires Rebases(hash, Window(box.events, KeyOf(e))[..k], box.marks[KeyOf(e)], e)
    ensures Rejoins(hash, box, e, k)
    ensures k == 0 ==> e.sequence == box.marks[KeyOf(e)].acked + 1 && (e.sequence == 1 <==> !HasNonzero(e.previous))
  {
    hide KeyOf, Window, OutboxOk, SameBody;
  }

  // ---- the laws ----

  /** A taken slot: the event is there already, or has to rejoin. */
  lemma SlotAccepts(hash: Hash, box: Outbox, e: Event, i: nat, written: bool)
    requires OutboxOk(hash, box) && Validates(e) && hash(e).Some?
    requires i < |box.events| && KeyOf(box.events[i]) == KeyOf(e) && box.events[i].sequence == e.sequence
    ensures Replace(hash, box, i, e, written).ok <==>
            IsStored(hash, box, e) || (written && exists k: nat, v :: Rebased(hash, box, e, k, v))
    ensures IsStored(hash, box, e) <==> hash(box.events[i]) == hash(e)
  {
    hide KeyOf, Window, OutboxOk, Rebase, Relinked, Validates;
    var key := KeyOf(e);
    var w := Window(box.events, key);
    var place := SlotPlace(hash, box, i, key);
    WindowMember(box.events, key, box.events[i]);
    if hash(box.events[i]) != hash(e) {
      assert !IsStored(hash, box, e);
      SlotInWindow(hash, box, box.events[i]);
      if k: nat, v :| Rebased(hash, box, e, k, v) {
        RebaseSucceeds(hash, box, i, e, written, k, v);
      }
      if Replace(hash, box, i, e, written).ok {
        var k, v := RebaseNeeds(hash, box, i, e, written);
      }
    }
  }

  /** What a taken slot excludes. */
  lemma SlotExcludes(hash: Hash, box: Outbox, e: Event, i: nat)
    requires OutboxOk(hash, box) && i < |box.events|
    requires KeyOf(box.events[i]) == KeyOf(e) && box.events[i].sequence == e.sequence
    ensures !Extends(box, e) && (IsNewest(hash, box, e) ==> hash(box.events[i]) == hash(e))
  {
    hide KeyOf, Window, Validates, SessionKey, Chained, Finals, ValidMark, Encodable;
    var key := KeyOf(e);
    var w, m := Window(box.events, key), box.marks[key];
    var place := SlotPlace(hash, box, i, key);
    HashedWhenStored(hash, box, box.events[i]);
  }

  /** Without a slot nothing of that sequence is stored in the session. */
  lemma NoSlotExcludes(hash: Hash, box: Outbox, e: Event)
    requires FindSlot(box.events, KeyOf(e), e.sequence) == |box.events|
    ensures !IsStored(hash, box, e) && forall k: nat, v :: !Rebased(hash, box, e, k, v)
  {
    hide KeyOf, Window, SameBody, Relinked;
    var w := Window(box.events, KeyOf(e));
    forall x | x in w
      ensures x.sequence != e.sequence && !SameBody(x, e)
    {
      WindowMember(box.events, KeyOf(e), x);
      var j :| 0 <= j < |box.events| && box.events[j] == x;
      if SameBody(x, e) {
        BodyKey(x, e);
      }
    }
    forall k | 0 <= k < |w|
      ensures !SameBody(w[k], e)
    {
      assert w[k] in w;
    }
  }

  lemma AppendAccepts(hash: Hash, box: Outbox, e: Event, mark: Mark, written: bool)
    requires OutboxOk(hash, box) && hash(e).Some? && (ValidMark(mark) <==> HashIsNonzero(hash, e))
    ensures Append(hash, box, e, mark, written).ok <==> written && HasSpace(box, e) && HashIsNonzero(hash, e)
  {
    hide KeyOf, ValidMark, Validates, SessionOk, SessionKey;
    var candidate := Outbox(box.events + [e], box.marks[KeyOf(e) := mark]);
    assert candidate.marks.Keys == box.marks.Keys + {KeyOf(e)};
    assert |candidate.marks| == if KeyOf(e) in box.marks then |box.marks| else |box.marks| + 1 by {
      CountKeys(box.marks, candidate.marks, KeyOf(e));
    }
    assert candidate.marks[KeyOf(e)] == mark;
  }

  lemma CountKeys(a: map<Key, Mark>, b: map<Key, Mark>, key: Key)
    requires b.Keys == a.Keys + {key}
    ensures |b| == if key in a then |a| else |a| + 1
  {
    assert |b| == |b.Keys| && |a| == |a.Keys|;
    if key in a {
      assert b.Keys == a.Keys;
    } else {
      assert b.Keys - {key} == a.Keys;
    }
  }

  lemma FirstMarkValid(hash: Hash, e: Event)
    requires Validates(e) && hash(e).Some?
    ensures ValidMark(Mark(OwnerOf(e), 1, hash(e).value, 0, Zeros(32), e.finalize)) <==> HashIsNonzero(hash, e)
  {
    assert !HasNonzero(Zeros(32));
  }

  lemma GrownMarkValid(hash: Hash, m: Mark, e: Event)
    requires ValidMark(m) && Validates(e) && hash(e).Some? && e.sequence == m.highest + 1
    ensures ValidMark(GrownMark(m, e, hash(e).value)) <==> HashIsNonzero(hash, e)
  {
  }

  /** Without a slot the event is the newest one again, or extends its session. */
  lemma NoSlotAccepts(hash: Hash, box: Outbox, e: Event, written: bool)
    requires OutboxOk(hash, box) && Validates(e) && hash(e).Some?
    requires FindSlot(box.events, KeyOf(e), e.sequence) == |box.events|
    ensures Enqueued(hash, box, e, written).ok <==>
            IsNewest(hash, box, e) ||
            (written && Extends(box, e) && HasSpace(box, e) && HashIsNonzero(hash, e))
  {
    hide KeyOf, Window, Append, SessionKey, GrownMark, ValidMark, HasSpace, HashIsNonzero, Encodable, Chained, Finals;
    var key, h := KeyOf(e), hash(e).value;
    if key !in box.marks {
      FirstMarkValid(hash, e);
      AppendAccepts(hash, box, e, Mark(OwnerOf(e), 1, h, 0, Zeros(32), e.finalize), written);
    } else if e.sequence == box.marks[key].highest + 1 {
      GrownMarkValid(hash, box.marks[key], e);
      AppendAccepts(hash, box, e, GrownMark(box.marks[key], e, h), written);
    }
  }

  /**
   * The outbox accepts a valid answer exactly when it is stored or newest already, or the file can be written and the
   * answer either extends its session within the quotas or takes the place of a stored one that it rejoins.
   */
  lemma EnqueueAcceptsIff(hash: Hash, box: Outbox, e: Event, written: bool)
    requires OutboxOk(hash, box)
    ensures Enqueued(hash, box, e, written).ok <==>
            Validates(e) && hash(e).Some? &&
            (IsStored(hash, box, e) || IsNewest(hash, box, e) ||
             (written && ((Extends(box, e) && HasSpace(box, e) && HashIsNonzero(hash, e)) ||
                          exists k: nat, v :: Rebased(hash, box, e, k, v))))
  {
    hide KeyOf, OutboxOk, Validates, Replace, Append, IsStored, IsNewest, Extends, HasSpace, HashIsNonzero, Rebased,
         FindSlot;
    var i := FindSlot(box.events, KeyOf(e), e.sequence);
    if Validates(e) && hash(e).Some? {
      if i < |box.events| {
        SlotAccepts(hash, box, e, i, written);
        SlotExcludes(hash, box, e, i);
      } else {
        NoSlotAccepts(hash, box, e, written);
        NoSlotExcludes(hash, box, e);
      }
    }
  }

  /** What the outbox holds of the session of an answer that it has accepted. */
  lemma EnqueueStores(hash: Hash, box: Outbox, e: Event, written: bool)
    requires OutboxOk(hash, box) && Enqueued(hash, box, e, written).ok
    ensures var after := Enqueued(hash, box, e, written).box;
            var w := Window(box.events, KeyOf(e));
            || (after == box && (IsStored(hash, box, e) || IsNewest(hash, box, e)))
            || (Extends(box, e) && Window(after.events, KeyOf(e)) == w + [e])
            || (exists k: nat, v :: Rebased(hash, box, e, k, v) && Window(after.events, KeyOf(e)) == w[..k] + v)
    ensures var after := Enqueued(hash, box, e, written).box;
            forall key :: key != KeyOf(e) ==>
              Window(after.events, key) == Window(box.events, key) && (key in after.marks <==> key in box.marks) &&
              (key in box.marks ==> after.marks[key] == box.marks[key])
  {
    hide KeyOf, OutboxOk, Validates, Window, Rebase, Append, Relinked, SameBody, FindSlot, GrownMark;
    var i := FindSlot(box.events, KeyOf(e), e.sequence);
    EnqueueAcceptsIff(hash, box, e, written);
    if i < |box.events| {
      SlotAccepts(hash, box, e, i, written);
      if !IsStored(hash, box, e) {
        var k: nat, v :| Rebased(hash, box, e, k, v);
        RebaseSucceeds(hash, box, i, e, written, k, v);
        RebaseElsewhere(hash, box, i, e, written);
      }
    } else if !IsNewest(hash, box, e) {
      NoSlotExcludes(hash, box, e);
      AppendStores(hash, box, e, written);
    }
  }

  lemma RebaseElsewhere(hash: Hash, box: Outbox, i: nat, e: Event, written: bool)
    requires OutboxOk(hash, box) && Validates(e) && hash(e).Some? && KeyOf(e) in box.marks
    requires i < |box.events| && SameBody(box.events[i], e) && Rebase(hash, box, i, e, written).ok
    ensures var after := Rebase(hash, box, i, e, written).box;
            forall key :: key != KeyOf(e) ==>
              Window(after.events, key) == Window(box.events, key) && (key in after.marks <==> key in box.marks) &&
              (key in box.marks ==> after.marks[key] == box.marks[key])
  {
    hide KeyOf, OutboxOk, Validates, Window, SameBody, Rechain, Rebases, Encodable, BodiesKept;
    RebaseKeeps(hash, box, i, e, written);
    var after := Rebase(hash, box, i, e, written).box;
    forall key | key != KeyOf(e)
      ensures Window(after.events, key) == Window(box.events, key)
    {
      KeyedAlike(box.events, after.events, KeyOf(e), key);
    }
  }

  lemma AppendStores(hash: Hash, box: Outbox, e: Event, written: bool)
    requires Enqueued(hash, box, e, written).ok && Extends(box, e)
    requires FindSlot(box.events, KeyOf(e), e.sequence) == |box.events|
    ensures var after := Enqueued(hash, box, e, written).box;
            Window(after.events, KeyOf(e)) == Window(box.events, KeyOf(e)) + [e] &&
            forall key :: key != KeyOf(e) ==>
              Window(after.events, key) == Window(box.events, key) && (key in after.marks <==> key in box.marks) &&
              (key in box.marks ==> after.marks[key] == box.marks[key])
  {
    hide KeyOf, Validates, Window, Encodable, GrownMark, FindSlot;
    var after := Enqueued(hash, box, e, written).box;
    assert after.events == box.events + [e];
    forall key
      ensures Window(after.events, key) == Window(box.events, key) + if key == KeyOf(e) then [e] else []
    {
      WindowConcat(box.events, [e], key);
      WindowCons(e, [], key);
      WindowNil(key);
      assert [e] + [] == [e];
    }
  }

  // ---- acknowledgements ----

  /** An event stored in the session has the session id, the sequence and the hash of the acknowledgement. */
  ghost predicate NamesStored(hash: Hash, box: Outbox, key: Key, a: Ack) {
    exists e :: e in Window(box.events, key) && EventNamed(hash, e, a)
  }

  /** The acknowledgement repeats the one that the session has reached. */
  predicate NamesBoundary(box: Outbox, key: Key, a: Ack) {
    key in box.marks &&
    var m := box.marks[key];
    m.owner.sessionId == a.sessionId && a.sequence == m.acked && a.hash == m.ackedHash
  }

  ghost predicate NamesSession(hash: Hash, box: Outbox, key: Key, a: Ack) {
    NamesStored(hash, box, key, a) || NamesBoundary(box, key, a)
  }

  /** The sessions collected are those that the acknowledgement names. */
  lemma ExactIsNamed(hash: Hash, box: Outbox, a: Ack, key: Key)
    requires OutboxOk(hash, box)
    ensures key in Exact(hash, box, a) <==> NamesSession(hash, box, key, a)
  {
    hide KeyOf, EventNamed, OutboxOk, Window;
    forall e
      ensures e in Window(box.events, key) <==> e in box.events && KeyOf(e) == key
    {
      WindowMember(box.events, key, e);
    }
    if key in box.marks && MarkNamed(box.marks[key], a) && !NamesBoundary(box, key, a) {
      NewestIsNamed(hash, box, key, a);
    }
  }

  lemma NewestIsNamed(hash: Hash, box: Outbox, key: Key, a: Ack)
    requires OutboxOk(hash, box) && key in box.marks && MarkNamed(box.marks[key], a) && !NamesBoundary(box, key, a)
    ensures NamesStored(hash, box, key, a)
  {
    hide KeyOf, Window, Validates, SessionKey, Chained, Finals, ValidMark, Encodable;
    var m, w := box.marks[key], Window(box.events, key);
    assert w != [];
    var last := w[|w| - 1];
    ChainedAt(hash, w, m.ackedHash, m.acked, |w| - 1);
    assert OwnerOf(last) == m.owner;
    assert last in w && EventNamed(hash, last, a);
  }

  lemma Single(keys: set<Key>, k: Key)
    requires k in keys && forall j :: j in keys ==> j == k
    ensures |keys| == 1
  {
    assert keys == {k};
  }

  lemma SelectedOwner(hash: Hash, box: Outbox, key: Key, a: Ack)
    requires OutboxOk(hash, box) && Selected(hash, box, a) == Some(key) && key in box.marks
    ensures box.marks[key].owner.sessionId == a.sessionId
  {
    hide KeyOf, OutboxOk;
    assert key in Exact(hash, box, a) + Candidates(box, a);
    if e :| e in box.events && e.sessionId == a.sessionId && KeyOf(e) == key {
      SlotInWindow(hash, box, e);
      assert OwnerOf(e).sessionId == e.sessionId;
    }
  }

  lemma StoredAccepts(hash: Hash, box: Outbox, key: Key, i: nat, a: Ack, written: bool)
    requires OutboxOk(hash, box) && Selected(hash, box, a) == Some(key) && a.sequence > 0
    requires i < |box.events| && KeyOf(box.events[i]) == key && box.events[i].sequence == a.sequence
    ensures RetireStored(hash, box, key, i, a, written).ok <==>
            NamesSession(hash, box, key, a) && (NamesStored(hash, box, key, a) ==> written && HasNonzero(a.hash))
  {
    hide KeyOf, Window, OutboxOk, Selected, Remaining, Encodable;
    var x := box.events[i];
    SelectedSession(hash, box, a);
    SlotInWindow(hash, box, x);
    var place := SlotPlace(hash, box, i, key);
    WindowMember(box.events, key, x);
    assert NamesStored(hash, box, key, a) <==> hash(x) == Some(a.hash);
    assert !NamesBoundary(box, key, a);
    AckedEncodable(hash, box, key, a);
  }

  lemma AckedEncodable(hash: Hash, box: Outbox, key: Key, a: Ack)
    requires OutboxOk(hash, box) && key in box.marks && box.marks[key].acked < a.sequence <= box.marks[key].highest
    ensures var m := AckedMark(box.marks[key], a.sequence, a.hash);
            Encodable(hash, Outbox(Remaining(box.events, key, a.sequence), box.marks[key := m])) <==>
            HasNonzero(a.hash)
  {
    hide OutboxOk, KeyOf, Encodable, Remaining;
    var events := Remaining(box.events, key, a.sequence);
    forall e
      ensures e in events ==> e in box.events
    {
      RemainingMember(box.events, key, a.sequence, e);
    }
    RemainingShrinks(box.events, key, a.sequence);
    forall e | e in events
      ensures hash(e).Some?
    {
      HashedWhenStored(hash, box, e);
    }
    MarkStays(hash, box, AckedMark(box.marks[key], a.sequence, a.hash), key, events);
    MarkIsValid(hash, box, key);
  }

  lemma {:induction false} RemainingShrinks(events: seq<Event>, key: Key, sequence: nat)
    ensures |Remaining(events, key, sequence)| <= |events|
  {
    hide KeyOf;
    if events != [] {
      RemainingShrinks(events[1..], key, sequence);
    }
  }

  lemma MarkIsValid(hash: Hash, box: Outbox, key: Key)
    requires OutboxOk(hash, box) && key in box.marks
    ensures ValidMark(box.marks[key])
  {
    hide KeyOf, SessionKey, Validates, Window, Encodable;
  }

  lemma BoundaryAccepts(hash: Hash, box: Outbox, key: Key, a: Ack, written: bool)
    requires OutboxOk(hash, box) && Selected(hash, box, a) == Some(key) && a.sequence > 0
    requires FindSlot(box.events, key, a.sequence) == |box.events|
    ensures RetireBoundary(hash, box, key, a, written).ok <==>
            NamesSession(hash, box, key, a) && (NamesStored(hash, box, key, a) ==> written && HasNonzero(a.hash))
  {
    hide KeyOf, Window, OutboxOk, Selected, Encodable;
    forall e | e in Window(box.events, key)
      ensures !EventNamed(hash, e, a)
    {
      WindowMember(box.events, key, e);
      var j :| 0 <= j < |box.events| && box.events[j] == e;
    }
    if key in box.marks {
      SelectedOwner(hash, box, key, a);
      MarkOrdered(hash, box, key);
      BoundaryMovesNothing(hash, box, key, a, written);
    }
  }

  /** An acknowledgement of the session it selects succeeds when it names the session. */
  lemma SelectedAccepts(hash: Hash, box: Outbox, key: Key, a: Ack, written: bool)
    requires OutboxOk(hash, box) && Selected(hash, box, a) == Some(key) && a.sequence > 0
    ensures Acknowledged(hash, box, a, written).ok <==>
            NamesSession(hash, box, key, a) && (NamesStored(hash, box, key, a) ==> written && HasNonzero(a.hash))
  {
    hide KeyOf, Window, OutboxOk, Selected, RetireStored, RetireBoundary, EventNamed, FindSlot;
    var i := FindSlot(box.events, key, a.sequence);
    if i < |box.events| {
      StoredAccepts(hash, box, key, i, a, written);
    } else {
      BoundaryAccepts(hash, box, key, a, written);
    }
  }

  /**
   * An acknowledgement succeeds exactly when it names one session and no other, and what it retires can be written. The
   * hash that is kept as the boundary must not be all zeros.
   */
  lemma AckAcceptsIff(hash: Hash, box: Outbox, a: Ack, written: bool)
    requires OutboxOk(hash, box)
    ensures Acknowledged(hash, box, a, written).ok <==>
            a.sequence > 0 &&
            exists key :: NamesSession(hash, box, key, a) &&
                          (forall other :: NamesSession(hash, box, other, a) ==> other == key) &&
                          (NamesStored(hash, box, key, a) ==> written && HasNonzero(a.hash))
  {
    hide OutboxOk, Exact, Candidates, NamesSession, NamesStored, RetireStored, RetireBoundary, FindSlot, KeyOf;
    forall key
      ensures key in Exact(hash, box, a) <==> NamesSession(hash, box, key, a)
    {
      ExactIsNamed(hash, box, a, key);
    }
    var exact, selected := Exact(hash, box, a), Selected(hash, box, a);
    if key :| key in exact && forall other :: other in exact ==> other == key {
      Single(exact, key);
    }
    if a.sequence > 0 && selected.Some? {
      SelectedAccepts(hash, box, selected.value, a, written);
    }
  }
}
