/**
 * Delivery of exam answers: which pending event may be sent, how an acknowledgement is matched to the exact event in
 * flight, and when it may reach the exam page.
 */
module AnswerDelivery {
  import opened Bytes
  import opened AnswerEvents
  import Box = AnswerOutbox

  const ACK_TIMEOUT: nat := 5000
  const REJECTED_DELAY: nat := 30000
  const TRANSIENT_DELAY: nat := 2000

  // ---- scheduling ----

  /** In-flight event keys with their contexts, and the earliest time at which a key may be sent again. */
  datatype Delivery = Delivery(inflight: map<Key, Key>, retryAfter: map<Key, nat>)

  const IDLE := Delivery(map[], map[])

  predicate Due(d: Delivery, key: Key, now: nat) {
    key in d.retryAfter && d.retryAfter[key] <= now
  }

  function InContext(d: Delivery, context: Key): set<Key> {
    set k | k in d.inflight && d.inflight[k] == context
  }

  predicate Blocked(d: Delivery, context: Key, now: nat) {
    exists k :: k in InContext(d, context) && !Due(d, k, now)
  }

  /** Gives up waiting for an event of the context whose release time has come. */
  function Release(d: Delivery, context: Key): Delivery {
    Delivery(d.inflight - InContext(d, context), d.retryAfter - InContext(d, context))
  }

  datatype Offered = Offered(d: Delivery, reserved: bool)

  /** One pending event is considered under the lock: skipped, or reserved until it is encoded. */
  function Offer(d: Delivery, key: Key, context: Key, now: nat): Offered {
    if Blocked(d, context, now) then Offered(d, false)
    else
      var released := Release(d, context);
      if key in released.retryAfter && released.retryAfter[key] > now then Offered(released, false)
      else
        var free := released.(retryAfter := released.retryAfter - {key});
        if key in free.inflight then Offered(free, false)
        else Offered(Delivery(free.inflight[key := context], free.retryAfter[key := now + ACK_TIMEOUT]), true)
  }

  /** A reserved event that the codec refuses is taken back; its delay stays. */
  function Withdraw(d: Delivery, key: Key): Delivery {
    d.(inflight := d.inflight - {key})
  }

  datatype Popped = Popped(d: Delivery, sent: Option<Event>)

  /** The first pending event that may be sent; `encodes` says what the event codec accepts. */
  function Pop(hash: Hash, d: Delivery, pending: seq<Event>, now: nat, encodes: Event -> bool): Popped
    decreases |pending|
  {
    if pending == [] then Popped(d, None)
    else
      var e := pending[0];
      var key := EventKey(hash, e);
      var o := Offer(d, key, ContextKey(e), now);
      if o.reserved && encodes(e) then Popped(o.d, Some(e))
      else Pop(hash, if o.reserved then Withdraw(o.d, key) else o.d, pending[1..], now, encodes)
  }

  predicate Durable(s: Status) {
    s == Accepted || s == Duplicate
  }

  function RetryDelay(s: Status): nat {
    if s == Rejected || s == Conflict then REJECTED_DELAY else TRANSIENT_DELAY
  }

  function Matching(d: Delivery, a: Ack): set<Key> {
    set k | k in d.inflight && MatchesAck(k, a)
  }

  function AtBoundary(d: Delivery, a: Ack): set<Key> {
    set k | k in d.inflight && MatchesBoundary(k, a.sessionId, a.sequence)
  }

  /** `retired` says that the outbox durably retired the acknowledged event. */
  function Settle(d: Delivery, a: Ack, now: nat, retired: bool): Delivery {
    var matching := Matching(d, a);
    var inflight := d.inflight - matching;
    if retired then Delivery(inflight, d.retryAfter - matching)
    else
      var at := now + if Durable(a.status) then REJECTED_DELAY else RetryDelay(a.status);
      Delivery(inflight, d.retryAfter + map k | k in matching :: at)
  }

  /** A unique boundary match without the right hash only moves the release time. */
  function Hint(d: Delivery, a: Ack, now: nat): Delivery {
    d.(retryAfter := d.retryAfter +
         if |AtBoundary(d, a)| == 1 then map k | k in AtBoundary(d, a) :: now + RetryDelay(a.status) else map[])
  }

  function Acknowledge(d: Delivery, a: Ack, now: nat, retired: bool): Delivery {
    var settled := Settle(d, a, now, retired && Durable(a.status));
    if Matching(d, a) == {} then Hint(settled, a, now) else settled
  }

  predicate Forwards(d: Delivery, a: Ack, retired: bool) {
    Matching(d, a) != {} && (Durable(a.status) ==> retired)
  }

  // ---- invariant ----

  ghost predicate FromEvent(hash: Hash, key: Key, context: Key) {
    exists e: Event :: e.Valid() && key == EventKey(hash, e) && context == ContextKey(e)
  }

  /** One event in flight per context, each with a release time at most 30 seconds ahead. */
  ghost predicate Inv(hash: Hash, d: Delivery, clock: nat) {
    && (forall k :: k in d.inflight ==> FromEvent(hash, k, d.inflight[k]) && k in d.retryAfter)
    && (forall k, l :: k in d.inflight && l in d.inflight && d.inflight[k] == d.inflight[l] ==> k == l)
    && (forall k :: k in d.retryAfter ==> d.retryAfter[k] <= clock + REJECTED_DELAY)
  }

  lemma OneContextPerKey(hash: Hash, key: Key, c: Key, other: Key)
    requires FromEvent(hash, key, c) && FromEvent(hash, key, other)
    ensures c == other
  {
    hide ContextKey, EventKey;
    var a: Event :| a.Valid() && key == EventKey(hash, a) && c == ContextKey(a);
    var b: Event :| b.Valid() && key == EventKey(hash, b) && other == ContextKey(b);
    EventKeyIdentifies(hash, a, b);
  }

  lemma OfferKeepsInv(hash: Hash, d: Delivery, key: Key, context: Key, now: nat)
    requires Inv(hash, d, now) && FromEvent(hash, key, context)
    ensures var o := Offer(d, key, context, now);
            Inv(hash, o.d, now) && o.d.inflight.Keys <= d.inflight.Keys + (if o.reserved then {key} else {}) &&
            (o.reserved ==> key in o.d.inflight)
  {
    hide FromEvent;
    if !Blocked(d, context, now) {
      var released := Release(d, context);
      if key in released.inflight {
        OneContextPerKey(hash, key, context, d.inflight[key]);
      }
    }
  }

  lemma WithdrawKeepsInv(hash: Hash, d: Delivery, key: Key, now: nat)
    requires Inv(hash, d, now)
    ensures Inv(hash, Withdraw(d, key), now)
  {
    hide FromEvent;
  }

  lemma AcknowledgeKeepsInv(hash: Hash, d: Delivery, a: Ack, now: nat, retired: bool)
    requires Inv(hash, d, now)
    ensures Inv(hash, Acknowledge(d, a, now, retired), now)
    ensures Acknowledge(d, a, now, retired).inflight == d.inflight - Matching(d, a)
  {
    hide FromEvent, MatchesAck, MatchesBoundary;
  }

  /** After 30 quiet seconds nothing in flight and no delay stands in the way of the first pending event. */
  lemma QuietSpellDelivers(hash: Hash, d: Delivery, clock: nat, pending: seq<Event>, now: nat, encodes: Event -> bool)
    requires Inv(hash, d, clock) && now >= clock + REJECTED_DELAY
    requires pending != [] && pending[0].Valid() && encodes(pending[0])
    ensures Pop(hash, d, pending, now, encodes).sent == Some(pending[0])
  {
    hide FromEvent;
    var e := pending[0];
    var key := EventKey(hash, e);
    assert !Blocked(d, ContextKey(e), now);
    var released := Release(d, ContextKey(e));
    if key in released.inflight {
      KeyOfEvent(hash, e);
      OneContextPerKey(hash, key, ContextKey(e), d.inflight[key]);
    }
  }

  predicate Waits(d: Delivery, key: Key, now: nat) {
    key in d.retryAfter && d.retryAfter[key] > now
  }

  /** When nothing in flight stands in the way, an event is reserved unless its own delay is still running. */
  lemma OfferReservesIff(hash: Hash, d: Delivery, e: Event, now: nat)
    requires Inv(hash, d, now) && e.Valid()
    ensures var o := Offer(d, EventKey(hash, e), ContextKey(e), now);
            && (o.reserved <==> !Blocked(d, ContextKey(e), now) && !Waits(d, EventKey(hash, e), now))
            && (Blocked(d, ContextKey(e), now) ==> o.d == d)
            && (!Blocked(d, ContextKey(e), now) ==>
                  InContext(o.d, ContextKey(e)) == if o.reserved then {EventKey(hash, e)} else {})
            && forall k :: k != EventKey(hash, e) && !Blocked(d, ContextKey(e), now) ==>
                             (Waits(o.d, k, now) <==> Waits(d, k, now))
  {
    hide FromEvent, EventKey, ContextKey;
    var key, context := EventKey(hash, e), ContextKey(e);
    if !Blocked(d, context, now) {
      var released := Release(d, context);
      if key in released.inflight {
        KeyOfEvent(hash, e);
        OneContextPerKey(hash, key, context, d.inflight[key]);
      }
    }
  }

  lemma {:induction false} PopSendsPending(hash: Hash, d: Delivery, pending: seq<Event>, now: nat,
                                           encodes: Event -> bool)
    ensures var p := Pop(hash, d, pending, now, encodes);
            p.sent.Some? ==> p.sent.value in pending && encodes(p.sent.value)
    decreases |pending|
  {
    hide Offer, Withdraw, EventKey, ContextKey;
    if pending != [] {
      var o := Offer(d, EventKey(hash, pending[0]), ContextKey(pending[0]), now);
      PopSendsPending(hash, if o.reserved then Withdraw(o.d, EventKey(hash, pending[0])) else o.d, pending[1..], now,
                      encodes);
    }
  }

  /**
   * The second pending event of a context is sent past the first exactly when no event of the context is in flight
   * and undue, the first one's delay is still running or the codec refuses it, and the second is free and encodable.
   */
  lemma OvertakesIff(hash: Hash, d: Delivery, e: Event, f: Event, rest: seq<Event>, now: nat, encodes: Event -> bool)
    requires Inv(hash, d, now) && e.Valid() && f.Valid() && ContextKey(e) == ContextKey(f)
    requires EventKey(hash, e) != EventKey(hash, f) && f !in rest
    ensures Pop(hash, d, [e, f] + rest, now, encodes).sent == Some(f) <==>
            && !Blocked(d, ContextKey(e), now)
            && (Waits(d, EventKey(hash, e), now) || !encodes(e))
            && !Waits(d, EventKey(hash, f), now) && encodes(f)
  {
    hide EventKey, ContextKey, Offer, FromEvent, Event.Valid, InContext, Waits, Blocked;
    var k, l, c := EventKey(hash, e), EventKey(hash, f), ContextKey(e);
    var pending := [e, f] + rest;
    var tail := [f] + rest;
    assert pending[0] == e && pending[1..] == tail && tail[0] == f && tail[1..] == rest;
    KeyOfEvent(hash, e);
    OfferReservesIff(hash, d, e, now);
    OfferKeepsInv(hash, d, k, c, now);
    var o := Offer(d, k, c, now);
    if !(o.reserved && encodes(e)) {
      var next := if o.reserved then Withdraw(o.d, k) else o.d;
      AfterFirst(hash, d, e, f, now);
      OfferReservesIff(hash, next, f, now);
      var q := Offer(next, l, c, now);
      PopSendsPending(hash, if q.reserved then Withdraw(q.d, l) else q.d, rest, now, encodes);
    }
  }

  /** What a skipped or withdrawn event leaves to the next one of its context. */
  lemma AfterFirst(hash: Hash, d: Delivery, e: Event, f: Event, now: nat)
    requires Inv(hash, d, now) && e.Valid() && f.Valid() && ContextKey(e) == ContextKey(f)
    requires EventKey(hash, e) != EventKey(hash, f)
    ensures var o := Offer(d, EventKey(hash, e), ContextKey(e), now);
            var next := if o.reserved then Withdraw(o.d, EventKey(hash, e)) else o.d;
            && Inv(hash, next, now)
            && (Blocked(next, ContextKey(e), now) <==> Blocked(d, ContextKey(e), now))
            && (!Blocked(d, ContextKey(e), now) ==>
                  (Waits(next, EventKey(hash, f), now) <==> Waits(d, EventKey(hash, f), now)))
  {
    hide EventKey, ContextKey, Offer, FromEvent, Event.Valid;
    KeyOfEvent(hash, e);
    OfferReservesIff(hash, d, e, now);
    OfferKeepsInv(hash, d, EventKey(hash, e), ContextKey(e), now);
    var o := Offer(d, EventKey(hash, e), ContextKey(e), now);
    WithdrawKeepsInv(hash, o.d, EventKey(hash, e), now);
  }

  lemma KeyOfEvent(hash: Hash, e: Event)
    requires e.Valid()
    ensures FromEvent(hash, EventKey(hash, e), ContextKey(e))
  {
  }

  // ---- runs ----

  /** What the service sent to the server and what it passed on to the agent. */
  datatype Effect = Sent(event: Event) | Forwarded(ack: Ack)

  /** `held` is the event the control session has reserved and not yet encoded. */
  datatype World = World(d: Delivery, held: Option<Event>, box: Box.Outbox, clock: nat, log: seq<Effect>)

  /**
   * What one thread does without giving up a lock. The control session reserves an event, encodes it and handles
   * acknowledgements one after the other; events are stored, and what is in flight is cleared, by other threads at any
   * point, even between the two halves of an offer. `ready` says that the outbox is open, `written` that its file can
   * be written.
   */
  datatype Step =
    | Store(event: Event, written: bool)
    | Reserve(event: Event, now: nat)
    | Encode(accepted: bool)
    | HandleAck(ack: Ack, now: nat, ready: bool, written: bool)
    | Clear

  predicate Admissible(w: World, step: Step) {
    match step
    case Reserve(e, now) => w.held.None? && w.clock <= now && e.Valid()
    case Encode(_) => w.held.Some?
    case HandleAck(a, now, _, _) => w.held.None? && w.clock <= now && a.sequence <= U64_MAX
    case _ => true
  }

  /** The outbox is only asked about a durable acknowledgement. */
  ghost function AskBox(hash: Hash, w: World, a: Ack, ready: bool, written: bool): Box.Result {
    if ready && Durable(a.status) then Box.Acknowledged(hash, w.box, a, written) else Box.Result(w.box, false)
  }

  ghost function Take(hash: Hash, w: World, step: Step): World {
    match step
    case Store(e, written) => w.(box := Box.Enqueued(hash, w.box, e, written).box)
    case Reserve(e, now) =>
      var o := Offer(w.d, EventKey(hash, e), ContextKey(e), now);
      w.(d := o.d, clock := now, held := if o.reserved then Some(e) else None)
    case Encode(accepted) =>
      if w.held.None? then w
      else if accepted then w.(held := None, log := w.log + [Sent(w.held.value)])
      else w.(held := None, d := Withdraw(w.d, EventKey(hash, w.held.value)))
    case HandleAck(a, now, ready, written) =>
      var asked := AskBox(hash, w, a, ready, written);
      w.(d := Acknowledge(w.d, a, now, asked.ok), box := asked.box, clock := now,
         log := w.log + if Forwards(w.d, a, asked.ok) then [Forwarded(a)] else [])
    case Clear => w.(d := IDLE)
  }

  ghost predicate AdmissibleRun(hash: Hash, w: World, steps: seq<Step>)
    decreases |steps|
  {
    steps == [] || (Admissible(w, steps[0]) && AdmissibleRun(hash, Take(hash, w, steps[0]), steps[1..]))
  }

  ghost function Run(hash: Hash, w: World, steps: seq<Step>): World
    decreases |steps|
  {
    if steps == [] then w else Run(hash, Take(hash, w, steps[0]), steps[1..])
  }

  /** The steps of an undisturbed pop. */
  function PopSteps(hash: Hash, d: Delivery, pending: seq<Event>, now: nat, encodes: Event -> bool): seq<Step>
    decreases |pending|
  {
    if pending == [] then []
    else
      var e := pending[0];
      var o := Offer(d, EventKey(hash, e), ContextKey(e), now);
      [Reserve(e, now)] +
      if !o.reserved then PopSteps(hash, o.d, pending[1..], now, encodes)
      else if encodes(e) then [Encode(true)]
      else [Encode(false)] + PopSteps(hash, Withdraw(o.d, EventKey(hash, e)), pending[1..], now, encodes)
  }

  lemma RunStep(hash: Hash, w: World, first: Step, rest: seq<Step>)
    ensures Run(hash, w, [first] + rest) == Run(hash, Take(hash, w, first), rest)
    ensures AdmissibleRun(hash, w, [first] + rest) ==
            (Admissible(w, first) && AdmissibleRun(hash, Take(hash, w, first), rest))
  {
    hide Take, Admissible;
    assert ([first] + rest)[1..] == rest;
  }

  /** A whole pop is a run of reservations and encodings that sends at most the event it returns. */
  lemma {:induction false} PopIsRun(hash: Hash, w: World, pending: seq<Event>, now: nat, encodes: Event -> bool)
    requires w.held.None? && w.clock <= now && forall e :: e in pending ==> e.Valid()
    ensures var steps := PopSteps(hash, w.d, pending, now, encodes);
            var p := Pop(hash, w.d, pending, now, encodes);
            && AdmissibleRun(hash, w, steps)
            && Run(hash, w, steps) ==
               World(p.d, None, w.box, if pending == [] then w.clock else now,
                     w.log + if p.sent.Some? then [Sent(p.sent.value)] else [])
    decreases |pending|
  {
    hide Offer, Withdraw, EventKey, ContextKey, Event.Valid, Run, AdmissibleRun;
    if pending == [] {
      assert w.log + [] == w.log;
      NoStep(hash, w);
    } else {
      var e := pending[0];
      var o := Offer(w.d, EventKey(hash, e), ContextKey(e), now);
      var w1 := Take(hash, w, Reserve(e, now));
      if !o.reserved {
        PopIsRun(hash, w1, pending[1..], now, encodes);
        RunStep(hash, w, Reserve(e, now), PopSteps(hash, o.d, pending[1..], now, encodes));
      } else if encodes(e) {
        var w2 := Take(hash, w1, Encode(true));
        NoStep(hash, w2);
        assert [Encode(true)] + [] == [Encode(true)];
        RunStep(hash, w1, Encode(true), []);
        RunStep(hash, w, Reserve(e, now), [Encode(true)]);
      } else {
        var w2 := Take(hash, w1, Encode(false));
        var rest := PopSteps(hash, w2.d, pending[1..], now, encodes);
        PopIsRun(hash, w2, pending[1..], now, encodes);
        RunStep(hash, w1, Encode(false), rest);
        RunStep(hash, w, Reserve(e, now), [Encode(false)] + rest);
      }
    }
  }

  lemma NoStep(hash: Hash, w: World)
    ensures Run(hash, w, []) == w && AdmissibleRun(hash, w, [])
  {
  }

  const BOOT := World(IDLE, None, Box.EMPTY, 0, [])

  predicate SameNames(a: Ack, b: Ack) {
    a.sessionId == b.sessionId && a.sequence == b.sequence && a.hash == b.hash
  }

  function SendsOf(hash: Hash, log: seq<Effect>, a: Ack): nat {
    if log == [] then 0
    else
      var last := log[|log| - 1];
      SendsOf(hash, log[..|log| - 1], a) + if last.Sent? && Names(hash, a, last.event) then 1 else 0
  }

  function ForwardsOf(log: seq<Effect>, a: Ack): nat {
    if log == [] then 0
    else
      var last := log[|log| - 1];
      ForwardsOf(log[..|log| - 1], a) + if last.Forwarded? && SameNames(a, last.ack) then 1 else 0
  }

  lemma LogPush(hash: Hash, log: seq<Effect>, f: Effect, a: Ack)
    ensures SendsOf(hash, log + [f], a) == SendsOf(hash, log, a) + if f.Sent? && Names(hash, a, f.event) then 1 else 0
    ensures ForwardsOf(log + [f], a) == ForwardsOf(log, a) + if f.Forwarded? && SameNames(a, f.ack) then 1 else 0
  {
    assert (log + [f])[..|log|] == log;
  }

  /** An event still reserved by the control session, which counts as in flight although it is not sent yet. */
  function Reserved(hash: Hash, w: World, a: Ack): nat {
    if w.held.Some? && Names(hash, a, w.held.value) && EventKey(hash, w.held.value) in w.d.inflight then 1 else 0
  }

  ghost predicate Balanced(hash: Hash, w: World, a: Ack) {
    ForwardsOf(w.log, a) + |Matching(w.d, a)| <= SendsOf(hash, w.log, a) + Reserved(hash, w, a)
  }

  /** Every acknowledgement passed on is preceded by a sent event that it names. */
  ghost predicate Answered(hash: Hash, log: seq<Effect>) {
    forall i :: 0 <= i < |log| && log[i].Forwarded? ==>
                  exists j :: 0 <= j < i && log[j].Sent? && Names(hash, log[i].ack, log[j].event)
  }

  ghost predicate WorldOk(hash: Hash, w: World) {
    && Inv(hash, w.d, w.clock)
    && (w.held.Some? ==> w.held.value.Valid())
    && (forall a: Ack :: a.sequence <= U64_MAX ==> Balanced(hash, w, a))
    && Answered(hash, w.log)
    && Box.OutboxOk(hash, w.box)
  }

  lemma SubsetCount<T>(a: set<T>, b: set<T>)
    requires a <= b
    ensures |a| <= |b|
  {
    assert b == a + (b - a);
  }

  /** A reservation adds at most the reserved key to the keys an acknowledgement could match. */
  lemma ReserveMatches(hash: Hash, d: Delivery, e: Event, now: nat, a: Ack)
    requires Inv(hash, d, now) && e.Valid() && a.sequence <= U64_MAX
    ensures var o := Offer(d, EventKey(hash, e), ContextKey(e), now);
            |Matching(o.d, a)| <= |Matching(d, a)| + (if o.reserved && Names(hash, a, e) then 1 else 0)
  {
    hide Offer, Inv, EventKey, ContextKey, Event.Valid, MatchesAck, HashField;
    var key := EventKey(hash, e);
    KeyOfEvent(hash, e);
    OfferKeepsInv(hash, d, key, ContextKey(e), now);
    AckMatchesExactly(hash, e, a);
    var o := Offer(d, key, ContextKey(e), now);
    SubsetCount(Matching(o.d, a), Matching(d, a) + (if o.reserved && Names(hash, a, e) then {key} else {}));
  }

  lemma ReserveKeepsWorld(hash: Hash, w: World, step: Step)
    requires WorldOk(hash, w) && Admissible(w, step) && step.Reserve?
    ensures WorldOk(hash, Take(hash, w, step))
  {
    hide Offer, EventKey, ContextKey, Matching, SendsOf, ForwardsOf, Names, Answered, Box.OutboxOk;
    LaterInv(hash, w.d, w.clock, step.now);
    KeyOfEvent(hash, step.event);
    OfferKeepsInv(hash, w.d, EventKey(hash, step.event), ContextKey(step.event), step.now);
    hide Inv;
    forall a: Ack | a.sequence <= U64_MAX
      ensures Balanced(hash, Take(hash, w, step), a)
    {
      assert Balanced(hash, w, a);
      ReserveMatches(hash, w.d, step.event, step.now, a);
    }
  }

  /** A held event leaves the books either as sent, or out of flight. */
  lemma EncodeBalances(hash: Hash, w: World, accepted: bool, a: Ack)
    requires w.held.Some? && w.held.value.Valid() && a.sequence <= U64_MAX && Balanced(hash, w, a)
    ensures Balanced(hash, Take(hash, w, Encode(accepted)), a)
  {
    hide EventKey, SendsOf, ForwardsOf, Names, HashField, MatchesAck, Event.Valid;
    var e := w.held.value;
    var key := EventKey(hash, e);
    LogPush(hash, w.log, Sent(e), a);
    HeldMatches(hash, e, a);
    var d := Withdraw(w.d, key);
    if key in Matching(w.d, a) {
      assert Matching(d, a) == Matching(w.d, a) - {key};
    } else {
      assert Matching(d, a) == Matching(w.d, a);
    }
  }

  lemma HeldMatches(hash: Hash, e: Event, a: Ack)
    requires e.Valid() && a.sequence <= U64_MAX
    ensures MatchesAck(EventKey(hash, e), a) <==> Names(hash, a, e)
  {
    hide EventKey, MatchesAck, HashField;
    AckMatchesExactly(hash, e, a);
  }

  lemma AnsweredGrows(hash: Hash, log: seq<Effect>, f: Effect)
    requires Answered(hash, log)
    requires f.Forwarded? ==> exists j :: 0 <= j < |log| && log[j].Sent? && Names(hash, f.ack, log[j].event)
    ensures Answered(hash, log + [f])
  {
    hide Names;
    var more := log + [f];
    forall i | 0 <= i < |more| && more[i].Forwarded?
      ensures exists j :: 0 <= j < i && more[j].Sent? && Names(hash, more[i].ack, more[j].event)
    {
      if i < |log| {
        var j :| 0 <= j < i && log[j].Sent? && Names(hash, log[i].ack, log[j].event);
        assert more[j] == log[j] && more[i] == log[i];
      } else {
        var j :| 0 <= j < |log| && log[j].Sent? && Names(hash, f.ack, log[j].event);
        assert more[j] == log[j];
      }
    }
  }

  lemma EncodeKeepsWorld(hash: Hash, w: World, step: Step)
    requires WorldOk(hash, w) && Admissible(w, step) && step.Encode?
    ensures WorldOk(hash, Take(hash, w, step))
  {
    hide EventKey, Balanced, Withdraw, Answered, Box.OutboxOk;
    WithdrawKeepsInv(hash, w.d, EventKey(hash, w.held.value), w.clock);
    AnsweredGrows(hash, w.log, Sent(w.held.value));
    hide Inv;
    forall a: Ack | a.sequence <= U64_MAX
      ensures Balanced(hash, Take(hash, w, step), a)
    {
      EncodeBalances(hash, w, step.accepted, a);
    }
  }

  lemma ClearBalances(hash: Hash, w: World, a: Ack)
    requires w.held.Some? ==> w.held.value.Valid()
    requires a.sequence <= U64_MAX && Balanced(hash, w, a)
    ensures Balanced(hash, w.(d := IDLE), a)
  {
    hide EventKey, SendsOf, ForwardsOf, MatchesAck, Names, HashField;
    assert Matching(IDLE, a) == {};
    if Reserved(hash, w, a) == 1 {
      HeldMatches(hash, w.held.value, a);
      SubsetCount({EventKey(hash, w.held.value)}, Matching(w.d, a));
    }
  }

  lemma ClearKeepsWorld(hash: Hash, w: World)
    requires WorldOk(hash, w)
    ensures WorldOk(hash, Take(hash, w, Clear))
  {
    hide Balanced, Answered, Box.OutboxOk, FromEvent;
    forall a: Ack | a.sequence <= U64_MAX
      ensures Balanced(hash, Take(hash, w, Clear), a)
    {
      ClearBalances(hash, w, a);
    }
  }

  lemma LaterInv(hash: Hash, d: Delivery, clock: nat, now: nat)
    requires Inv(hash, d, clock) && clock <= now
    ensures Inv(hash, d, now)
  {
    hide FromEvent;
  }

  lemma SameNamesMatch(d: Delivery, a: Ack, b: Ack)
    requires SameNames(a, b)
    ensures Matching(d, a) == Matching(d, b)
  {
  }

  lemma AckMatches(d: Delivery, n: Delivery, a: Ack, b: Ack, forwarded: bool)
    requires n.inflight == d.inflight - Matching(d, b) && (forwarded ==> Matching(d, b) != {})
    ensures |Matching(n, a)| + (if forwarded && SameNames(a, b) then 1 else 0) <= |Matching(d, a)|
  {
    hide MatchesAck;
    SubsetCount(Matching(n, a), Matching(d, a));
    if forwarded && SameNames(a, b) {
      SameNamesMatch(d, a, b);
      assert Matching(n, a) == {};
    }
  }

  /** Something sent accounts for every acknowledgement that can be passed on. */
  lemma {:induction false} SomethingSent(hash: Hash, log: seq<Effect>, a: Ack)
    requires SendsOf(hash, log, a) > 0
    ensures exists j :: 0 <= j < |log| && log[j].Sent? && Names(hash, a, log[j].event)
  {
    hide Names;
    var last := |log| - 1;
    if !(log[last].Sent? && Names(hash, a, log[last].event)) {
      SomethingSent(hash, log[..last], a);
      var j :| 0 <= j < last && log[..last][j].Sent? && Names(hash, a, log[..last][j].event);
      assert log[j].Sent? && Names(hash, a, log[j].event);
    }
  }

  lemma AskedKeepsBox(hash: Hash, w: World, a: Ack, ready: bool, written: bool)
    requires Box.OutboxOk(hash, w.box)
    ensures Box.OutboxOk(hash, AskBox(hash, w, a, ready, written).box)
  {
    hide Box.OutboxOk, Box.Acknowledged;
    Box.AcknowledgeKeeps(hash, w.box, a, written);
  }

  lemma StoreKeepsWorld(hash: Hash, w: World, step: Step)
    requires WorldOk(hash, w) && step.Store?
    ensures WorldOk(hash, Take(hash, w, step))
  {
    hide Inv, Answered, Matching, SendsOf, ForwardsOf, Reserved, Box.OutboxOk, Box.Enqueued;
    Box.EnqueueKeeps(hash, w.box, step.event, step.written);
    forall a: Ack | a.sequence <= U64_MAX
      ensures Balanced(hash, Take(hash, w, step), a)
    {
      assert Balanced(hash, w, a);
      hide EventKey, Names;
      assert Reserved(hash, Take(hash, w, step), a) == Reserved(hash, w, a) by { SameReserved(hash, w, step, a); }
    }
  }

  lemma SameReserved(hash: Hash, w: World, step: Step, a: Ack)
    requires step.Store?
    ensures Reserved(hash, Take(hash, w, step), a) == Reserved(hash, w, a)
  {
    hide Names, EventKey, Box.Enqueued;
  }

  lemma AckBalances(hash: Hash, w: World, step: Step, a: Ack)
    requires Inv(hash, w.d, w.clock) && Admissible(w, step) && step.HandleAck? && Balanced(hash, w, a)
    ensures Balanced(hash, Take(hash, w, step), a)
  {
    hide Acknowledge, AskBox, Matching, SendsOf, ForwardsOf, Names, SameNames;
    LaterInv(hash, w.d, w.clock, step.now);
    AcknowledgeKeepsInv(hash, w.d, step.ack, step.now, AskBox(hash, w, step.ack, step.ready, step.written).ok);
    hide Inv;
    var forwarded := Forwards(w.d, step.ack, AskBox(hash, w, step.ack, step.ready, step.written).ok);
    AckMatches(w.d, Take(hash, w, step).d, a, step.ack, forwarded);
    LogPush(hash, w.log, Forwarded(step.ack), a);
    assert w.log + [] == w.log;
  }

  lemma AckKeepsWorld(hash: Hash, w: World, step: Step)
    requires WorldOk(hash, w) && Admissible(w, step) && step.HandleAck?
    ensures WorldOk(hash, Take(hash, w, step))
  {
    hide Acknowledge, AskBox, Matching, SendsOf, ForwardsOf, Names, SameNames, Answered, Box.OutboxOk;
    LaterInv(hash, w.d, w.clock, step.now);
    AskedKeepsBox(hash, w, step.ack, step.ready, step.written);
    AcknowledgeKeepsInv(hash, w.d, step.ack, step.now, AskBox(hash, w, step.ack, step.ready, step.written).ok);
    if Forwards(w.d, step.ack, AskBox(hash, w, step.ack, step.ready, step.written).ok) {
      assert Balanced(hash, w, step.ack) && |Matching(w.d, step.ack)| > 0;
      SomethingSent(hash, w.log, step.ack);
      AnsweredGrows(hash, w.log, Forwarded(step.ack));
    }
    assert w.log + [] == w.log;
    forall a: Ack | a.sequence <= U64_MAX
      ensures Balanced(hash, Take(hash, w, step), a)
    {
      AckBalances(hash, w, step, a);
    }
  }

  lemma {:induction false} RunKeepsWorld(hash: Hash, w: World, steps: seq<Step>)
    requires WorldOk(hash, w) && AdmissibleRun(hash, w, steps)
    ensures WorldOk(hash, Run(hash, w, steps))
    decreases |steps|
  {
    hide WorldOk, Take, Admissible;
    if steps != [] {
      match steps[0] {
        case Reserve(_, _) => ReserveKeepsWorld(hash, w, steps[0]);
        case Encode(_) => EncodeKeepsWorld(hash, w, steps[0]);
        case HandleAck(_, _, _, _) => AckKeepsWorld(hash, w, steps[0]);
        case Store(_, _) => StoreKeepsWorld(hash, w, steps[0]);
        case Clear => ClearKeepsWorld(hash, w);
      }
      RunKeepsWorld(hash, Take(hash, w, steps[0]), steps[1..]);
    }
  }

  lemma BootOk(hash: Hash)
    ensures WorldOk(hash, BOOT)
  {
    Box.EmptyOk(hash);
    assert forall a: Ack :: Matching(IDLE, a) == {};
  }

  /** Every acknowledgement that reaches the exam page answers an event that was sent before, in every run. */
  lemma ForwardsFollowSends(hash: Hash, steps: seq<Step>, i: nat)
    requires AdmissibleRun(hash, BOOT, steps) && i < |Run(hash, BOOT, steps).log|
    requires Run(hash, BOOT, steps).log[i].Forwarded?
    ensures var log := Run(hash, BOOT, steps).log;
            exists j :: 0 <= j < i && log[j].Sent? && Names(hash, log[i].ack, log[j].event)
  {
    hide Run, AdmissibleRun, Names;
    BootOk(hash);
    RunKeepsWorld(hash, BOOT, steps);
  }

  /** In every run and for every session, sequence and hash, acknowledgements forwarded never exceed events sent. */
  lemma ForwardsNeverExceedSends(hash: Hash, steps: seq<Step>, a: Ack)
    requires AdmissibleRun(hash, BOOT, steps) && a.sequence <= U64_MAX
    ensures ForwardsOf(Run(hash, BOOT, steps).log, a) <= SendsOf(hash, Run(hash, BOOT, steps).log, a)
  {
    hide Run, AdmissibleRun, SendsOf, ForwardsOf;
    BootOk(hash);
    RunKeepsWorld(hash, BOOT, steps);
    assert Balanced(hash, Run(hash, BOOT, steps), a);
    HeldIsCounted(hash, Run(hash, BOOT, steps), a);
  }

  /** A reservation that is counted is itself one of the keys in flight. */
  lemma HeldIsCounted(hash: Hash, w: World, a: Ack)
    requires WorldOk(hash, w) && a.sequence <= U64_MAX
    ensures Reserved(hash, w, a) <= |Matching(w.d, a)|
  {
    hide EventKey, MatchesAck, Names, HashField, Inv, Answered, Balanced;
    if Reserved(hash, w, a) == 1 {
      HeldMatches(hash, w.held.value, a);
      SubsetCount({EventKey(hash, w.held.value)}, Matching(w.d, a));
    }
  }

  /** In every run two events in flight never share an exam context, and each has a release time within 30 seconds. */
  lemma OneInFlightPerContext(hash: Hash, steps: seq<Step>, a: Event, b: Event)
    requires AdmissibleRun(hash, BOOT, steps) && a.Valid() && b.Valid()
    requires EventKey(hash, a) in Run(hash, BOOT, steps).d.inflight
    requires EventKey(hash, b) in Run(hash, BOOT, steps).d.inflight
    ensures var w := Run(hash, BOOT, steps);
            && (SameContext(a, b) ==> a.sequence == b.sequence && HashField(hash, a) == HashField(hash, b))
            && EventKey(hash, a) in w.d.retryAfter
            && w.d.retryAfter[EventKey(hash, a)] <= w.clock + REJECTED_DELAY
  {
    hide Run, Take, EventKey, ContextKey, Event.Valid;
    BootOk(hash);
    RunKeepsWorld(hash, BOOT, steps);
    var d := Run(hash, BOOT, steps).d;
    KeyOfEvent(hash, a);
    KeyOfEvent(hash, b);
    OneContextPerKey(hash, EventKey(hash, a), ContextKey(a), d.inflight[EventKey(hash, a)]);
    OneContextPerKey(hash, EventKey(hash, b), ContextKey(b), d.inflight[EventKey(hash, b)]);
    if SameContext(a, b) {
      ContextKeyIdentifies(a, b);
      EventKeyIdentifies(hash, a, b);
    }
  }

  /**
   * A forwarded acknowledgement names an event in flight and takes it out of flight; a durable one has also taken
   * everything it names out of the outbox.
   */
  lemma ForwardedIsExact(hash: Hash, w: World, step: Step)
    requires WorldOk(hash, w) && step.HandleAck? && Admissible(w, step)
    requires Forwards(w.d, step.ack, AskBox(hash, w, step.ack, step.ready, step.written).ok)
    ensures exists e: Event :: e.Valid() && EventKey(hash, e) in w.d.inflight && Names(hash, step.ack, e) &&
                               EventKey(hash, e) !in Take(hash, w, step).d.inflight
    ensures Durable(step.ack.status) ==> forall e :: e in Take(hash, w, step).box.events ==> !Names(hash, step.ack, e)
  {
    hide EventKey, ContextKey, MatchesAck, HashField, Box.OutboxOk, Box.Acknowledged;
    var k :| k in Matching(w.d, step.ack);
    assert FromEvent(hash, k, w.d.inflight[k]);
    var e: Event :| e.Valid() && k == EventKey(hash, e) && w.d.inflight[k] == ContextKey(e);
    AckMatchesExactly(hash, e, step.ack);
    AcknowledgeKeepsInv(hash, w.d, step.ack, w.clock, AskBox(hash, w, step.ack, step.ready, step.written).ok);
    if Durable(step.ack.status) {
      Box.NamedIsGone(hash, w.box, step.ack, step.written);
    }
  }

  /** How long an acknowledged event stays back, in milliseconds. */
  function StaysBack(s: Status): nat {
    match s
    case Rejected => 30_000
    case Conflict => 30_000
    case Accepted => 30_000
    case Duplicate => 30_000
    case Gap => 2_000
    case Unavailable => 2_000
  }

  /**
   * An acknowledgement that matches takes its event out of flight. A durable one that has retired the event lifts its
   * delay; otherwise the event stays back for 30 seconds, or for 2 when the server asks for another attempt. Nothing
   * else is touched.
   */
  lemma MatchedDelays(d: Delivery, a: Ack, now: nat, retired: bool, key: Key)
    requires key in d.inflight && MatchesAck(key, a)
    ensures var t := Acknowledge(d, a, now, retired);
            && key !in t.inflight
            && (if retired && (a.status == Accepted || a.status == Duplicate) then key !in t.retryAfter
                else key in t.retryAfter && t.retryAfter[key] == now + StaysBack(a.status))
            && forall k :: !(k in d.inflight && MatchesAck(k, a)) ==>
                 (k in t.inflight <==> k in d.inflight) && (k in d.inflight ==> t.inflight[k] == d.inflight[k]) &&
                 (k in t.retryAfter <==> k in d.retryAfter) &&
                 (k in d.retryAfter ==> t.retryAfter[k] == d.retryAfter[k])
  {
    hide MatchesAck;
    assert key in Matching(d, a);
  }

  /**
   * An acknowledgement that matches no event leaves everything in flight. When it names the session and sequence of one
   * event, under another hash, that event is released after 30 seconds for a refusal and after 2 otherwise.
   */
  lemma UnmatchedDelays(d: Delivery, a: Ack, now: nat, retired: bool, key: Key)
    requires forall k :: k in d.inflight ==> !MatchesAck(k, a)
    requires key in d.inflight && MatchesBoundary(key, a.sessionId, a.sequence)
    requires forall k :: k in d.inflight && MatchesBoundary(k, a.sessionId, a.sequence) ==> k == key
    ensures var t := Acknowledge(d, a, now, retired);
            var delay := if a.status == Rejected || a.status == Conflict then 30_000 else 2_000;
            t.inflight == d.inflight && t.retryAfter == d.retryAfter[key := now + delay]
  {
    hide MatchesAck, MatchesBoundary;
    assert Matching(d, a) == {};
    assert AtBoundary(d, a) == {key};
  }

  /** A reserved event is in flight and stays back for five seconds. */
  lemma ReservationDelays(d: Delivery, key: Key, context: Key, now: nat)
    requires Offer(d, key, context, now).reserved
    ensures var t := Offer(d, key, context, now).d;
            key in t.inflight && t.inflight[key] == context && key in t.retryAfter && t.retryAfter[key] == now + 5_000
  {
  }

  /**
   * An acknowledgement reaches the exam page exactly when it names an event in flight and, if it is durable, the outbox
   * has retired what it names.
   */
  lemma ForwardedIff(hash: Hash, w: World, step: Step)
    requires WorldOk(hash, w) && step.HandleAck? && Admissible(w, step)
    ensures var asked := AskBox(hash, w, step.ack, step.ready, step.written);
            Take(hash, w, step).log == w.log + (if
              (exists e: Event :: e.Valid() && EventKey(hash, e) in w.d.inflight && Names(hash, step.ack, e)) &&
              (step.ack.status == Accepted || step.ack.status == Duplicate ==> asked.ok)
              then [Forwarded(step.ack)] else [])
  {
    hide EventKey, ContextKey, MatchesAck, HashField, Box.OutboxOk, Box.Acknowledged, AskBox, Acknowledge, Names;
    var asked := AskBox(hash, w, step.ack, step.ready, step.written);
    if Matching(w.d, step.ack) != {} {
      var k :| k in Matching(w.d, step.ack);
      assert FromEvent(hash, k, w.d.inflight[k]);
      var e: Event :| e.Valid() && k == EventKey(hash, e) && w.d.inflight[k] == ContextKey(e);
      NamedMatches(hash, e, step.ack);
    }
    if e: Event :| e.Valid() && EventKey(hash, e) in w.d.inflight && Names(hash, step.ack, e) {
      NamedMatches(hash, e, step.ack);
      assert EventKey(hash, e) in Matching(w.d, step.ack);
    }
  }

  lemma NamedMatches(hash: Hash, e: Event, a: Ack)
    requires e.Valid() && a.sequence <= U64_MAX
    ensures MatchesAck(EventKey(hash, e), a) <==> Names(hash, a, e)
  {
    hide EventKey, MatchesAck, HashField;
    AckMatchesExactly(hash, e, a);
  }

  // ---- an answered event does not hold back the next one ----

  /** Two consecutive answers at the start of a session. */
  ghost predicate Pair(hash: Hash, e: Event, f: Event) {
    && Box.Validates(e) && e.sequence == 1 && !e.finalize && hash(e).Some? && HasNonzero(hash(e).value)
    && f == e.(sequence := 2, previous := hash(e).value, body := f.body)
    && hash(f).Some? && HasNonzero(hash(f).value)
  }

  function PairBox(hash: Hash, e: Event, f: Event): Box.Outbox
    requires hash(f).Some?
  {
    Box.Outbox([e, f], map[Box.KeyOf(e) := Box.Mark(Box.OwnerOf(e), 2, hash(f).value, 0, Zeros(32), false)])
  }

  lemma PairStored(hash: Hash, e: Event, f: Event)
    requires Pair(hash, e, f)
    ensures Box.Enqueued(hash, Box.Enqueued(hash, Box.EMPTY, e, true).box, f, true).box == PairBox(hash, e, f)
  {
    hide Box.SessionKey;
    var key := Box.KeyOf(e);
    assert Box.KeyOf(f) == key && Box.OwnerOf(f) == Box.OwnerOf(e);
    var one := Box.Enqueued(hash, Box.EMPTY, e, true).box;
    var mark := Box.Mark(Box.OwnerOf(e), 1, hash(e).value, 0, Zeros(32), false);
    assert one.events == [e] && one.marks == map[key := mark];
    assert Box.FindSlot([e], key, 2) == 1;
    assert Box.Enqueued(hash, one, f, true).box.marks == PairBox(hash, e, f).marks;
  }

  /** The acknowledgement of the second answer empties the outbox of both. */
  lemma PairRetired(hash: Hash, e: Event, f: Event)
    requires Pair(hash, e, f)
    ensures var r := Box.Acknowledged(hash, PairBox(hash, e, f), Ack(Accepted, e.sessionId, 2, hash(f).value), true);
            r.ok && r.box.events == []
  {
    hide Box.SessionKey;
    var key := Box.KeyOf(e);
    var box, a := PairBox(hash, e, f), Ack(Accepted, e.sessionId, 2, hash(f).value);
    assert Box.KeyOf(f) == key;
    assert f in box.events && Box.EventNamed(hash, f, a);
    assert Box.Exact(hash, box, a) == {key};
    assert Box.Selected(hash, box, a) == Some(key);
    assert Box.FindSlot(box.events, key, 2) == 1 by {
      assert box.events[0] == e && box.events[1] == f;
    }
    assert Box.Remaining(box.events, key, 2) == [] by {
      assert box.events[1..] == [f] && [f][1..] == [];
      assert Box.Remaining([], key, 2) == [] && Box.Remaining([f], key, 2) == [];
    }
  }

  lemma PairKeys(hash: Hash, e: Event, f: Event)
    requires Pair(hash, e, f)
    ensures e.Valid() && f.Valid() && EventKey(hash, e) != EventKey(hash, f) && ContextKey(e) == ContextKey(f)
  {
    hide EventKey, HashField;
    if EventKey(hash, e) == EventKey(hash, f) {
      EventKeyIdentifies(hash, e, f);
    }
  }

  lemma OfferToIdle(d: Delivery, key: Key, context: Key, now: nat)
    requires d.inflight == map[] && key !in d.retryAfter
    ensures Offer(d, key, context, now) ==
            Offered(Delivery(map[key := context], d.retryAfter[key := now + ACK_TIMEOUT]), true)
  {
    assert InContext(d, context) == {};
    assert Release(d, context) == d && d.retryAfter - {key} == d.retryAfter;
  }

  lemma OnlyOneMatches(hash: Hash, d: Delivery, e: Event, a: Ack)
    requires e.Valid() && d.inflight.Keys == {EventKey(hash, e)} && Names(hash, a, e) && a.sequence <= U64_MAX
    ensures Matching(d, a) == {EventKey(hash, e)}
  {
    hide EventKey, MatchesAck, Names, HashField;
    HeldMatches(hash, e, a);
  }

  /**
   * While the first answer is in flight the second is held back, but not once the first has been answered, even
   * negatively: it may then be sent, and its acknowledgement also retires the first, which no durable acknowledgement
   * ever named.
   */
  lemma EarlierRetiredUnacknowledged(hash: Hash, e: Event, f: Event, now: nat)
    requires Pair(hash, e, f)
    ensures var no := Ack(Unavailable, e.sessionId, 1, hash(e).value);
            var yes := Ack(Accepted, e.sessionId, 2, hash(f).value);
            var steps := [Store(e, true), Store(f, true), Reserve(e, now), Encode(true), HandleAck(no, now, true, true),
                          Reserve(f, now), Encode(true), HandleAck(yes, now, true, true)];
            var w := Run(hash, BOOT, steps);
            && AdmissibleRun(hash, BOOT, steps)
            && w.log == [Sent(e), Forwarded(no), Sent(f), Forwarded(yes)] && w.box.events == []
  {
    hide EventKey, ContextKey, HashField, Offer, Box.Enqueued, Box.Acknowledged, Box.KeyOf, Box.OwnerOf, Matching, Run,
         AdmissibleRun, Event.Valid;
    var no, yes := Ack(Unavailable, e.sessionId, 1, hash(e).value), Ack(Accepted, e.sessionId, 2, hash(f).value);
    var k, l, c := EventKey(hash, e), EventKey(hash, f), ContextKey(e);
    PairStored(hash, e, f);
    PairRetired(hash, e, f);
    PairKeys(hash, e, f);
    HashOf(hash, e);
    HashOf(hash, f);
    var w2 := Take(hash, Take(hash, BOOT, Store(e, true)), Store(f, true));
    OfferToIdle(IDLE, k, c, now);
    var w4 := Take(hash, Take(hash, w2, Reserve(e, now)), Encode(true));
    assert w4.d == Delivery(map[k := c], map[k := now + ACK_TIMEOUT]) && w4.log == [Sent(e)];
    OnlyOneMatches(hash, w4.d, e, no);
    var w5 := Take(hash, w4, HandleAck(no, now, true, true));
    assert w5.d.inflight == map[] && w5.d.retryAfter.Keys == {k} && w5.log == [Sent(e), Forwarded(no)];
    OfferToIdle(w5.d, l, c, now);
    var w7 := Take(hash, Take(hash, w5, Reserve(f, now)), Encode(true));
    assert w7.d.inflight == map[l := c] && w7.log == [Sent(e), Forwarded(no), Sent(f)];
    OnlyOneMatches(hash, w7.d, f, yes);
    var w8 := Take(hash, w7, HandleAck(yes, now, true, true));
    assert w8.log == [Sent(e), Forwarded(no), Sent(f), Forwarded(yes)] && w8.box.events == [];
    var rest := [HandleAck(no, now, true, true), Reserve(f, now), Encode(true), HandleAck(yes, now, true, true)];
    assert rest + [] == rest;
    RunOfFour(hash, BOOT, Store(e, true), Store(f, true), Reserve(e, now), Encode(true), rest);
    RunOfFour(hash, w4, rest[0], rest[1], rest[2], rest[3], []);
    NoStep(hash, w8);
    assert [Store(e, true), Store(f, true), Reserve(e, now), Encode(true), HandleAck(no, now, true, true),
            Reserve(f, now), Encode(true), HandleAck(yes, now, true, true)] ==
           [Store(e, true), Store(f, true), Reserve(e, now), Encode(true)] + rest;
  }

  lemma HashOf(hash: Hash, e: Event)
    requires hash(e).Some?
    ensures HashField(hash, e) == hash(e).value
  {
  }

  lemma RunOfFour(hash: Hash, w: World, a: Step, b: Step, c: Step, d: Step, rest: seq<Step>)
    ensures var w1 := Take(hash, w, a);
            var w2 := Take(hash, w1, b);
            var w3 := Take(hash, w2, c);
            var w4 := Take(hash, w3, d);
            && Run(hash, w, [a, b, c, d] + rest) == Run(hash, w4, rest)
            && AdmissibleRun(hash, w, [a, b, c, d] + rest) ==
               (Admissible(w, a) && Admissible(w1, b) && Admissible(w2, c) && Admissible(w3, d) &&
                AdmissibleRun(hash, w4, rest))
  {
    hide Take, Admissible;
    var w1 := Take(hash, w, a);
    var w2 := Take(hash, w1, b);
    assert [a, b, c, d] + rest == [a] + ([b] + ([c] + ([d] + rest)));
    RunStep(hash, w, a, [b] + ([c] + ([d] + rest)));
    RunStep(hash, w1, b, [c] + ([d] + rest));
    RunStep(hash, w2, c, [d] + rest);
    RunStep(hash, Take(hash, w2, c), d, rest);
  }

  // ---- the scheduler as the service runs it ----

  class AnswerScheduler {
    const hash: Hash
    var inflight: map<Key, Key>
    var retryAfter: map<Key, nat>

    ghost function View(): Delivery
      reads this
    {
      Delivery(inflight, retryAfter)
    }

    constructor (hash: Hash)
      ensures View() == IDLE && this.hash == hash
    {
      this.hash := hash;
      inflight, retryAfter := map[], map[];
    }

    /** Walks the events in flight until one of the context must still be waited for. */
    method ReleaseContext(context: Key, now: nat) returns (blocked: bool)
      requires forall k, l :: k in inflight && l in inflight && inflight[k] == inflight[l] ==> k == l
      modifies this
      ensures blocked == Blocked(old(View()), context, now)
      ensures View() == if blocked then old(View()) else Release(old(View()), context)
    {
      var todo := inflight.Keys;
      blocked := false;
      while todo != {}
        invariant todo <= old(inflight).Keys
        invariant forall k :: k in todo ==> k in inflight && inflight[k] == old(inflight)[k]
        invariant View() == if InContext(old(View()), context) <= todo then old(View())
                            else Release(old(View()), context)
        invariant forall k :: k in InContext(old(View()), context) - todo ==> Due(old(View()), k, now)
      {
        var k :| k in todo;
        todo := todo - {k};
        if inflight[k] == context {
          assert InContext(old(View()), context) == {k};
          if k !in retryAfter || retryAfter[k] > now {
            return true;
          }
          inflight, retryAfter := inflight - {k}, retryAfter - {k};
        }
      }
      assert InContext(old(View()), context) <= {} ==> Release(old(View()), context) == old(View());
    }

    /** The part of an offer done under the lock. */
    method ReserveEvent(e: Event, now: nat) returns (reserved: bool)
      requires forall k, l :: k in inflight && l in inflight && inflight[k] == inflight[l] ==> k == l
      modifies this
      ensures Offered(View(), reserved) == Offer(old(View()), EventKey(hash, e), ContextKey(e), now)
    {
      hide EventKey, ContextKey, InContext, Blocked, Release;
      var key, context := EventKey(hash, e), ContextKey(e);
      var blocked := ReleaseContext(context, now);
      if blocked {
        return false;
      }
      if key in retryAfter {
        if retryAfter[key] > now {
          return false;
        }
        retryAfter := retryAfter - {key};
      } else {
        assert retryAfter - {key} == retryAfter;
      }
      if key in inflight {
        return false;
      }
      inflight, retryAfter := inflight[key := context], retryAfter[key := now + ACK_TIMEOUT];
      return true;
    }

    method WithdrawEvent(e: Event)
      modifies this
      ensures View() == Withdraw(old(View()), EventKey(hash, e))
    {
      inflight := inflight - {EventKey(hash, e)};
    }

    method PopOutbound(pending: seq<Event>, now: nat, encodes: Event -> bool) returns (sent: Option<Event>)
      requires Inv(hash, View(), now) && forall e :: e in pending ==> e.Valid()
      modifies this
      ensures Popped(View(), sent) == Pop(hash, old(View()), pending, now, encodes)
      ensures Inv(hash, View(), now)
    {
      hide Offer, Withdraw, EventKey, ContextKey, FromEvent, Event.Valid;
      for i := 0 to |pending|
        invariant Inv(hash, View(), now)
        invariant Pop(hash, old(View()), pending, now, encodes) == Pop(hash, View(), pending[i..], now, encodes)
      {
        var e := pending[i];
        assert pending[i..][1..] == pending[i + 1..];
        KeyOfEvent(hash, e);
        OfferKeepsInv(hash, View(), EventKey(hash, e), ContextKey(e), now);
        var reserved := ReserveEvent(e, now);
        if reserved {
          if encodes(e) {
            return Some(e);
          }
          WithdrawKeepsInv(hash, View(), EventKey(hash, e), now);
          WithdrawEvent(e);
        }
      }
      return None;
    }

    method KeysMatching(a: Ack) returns (keys: set<Key>)
      ensures keys == Matching(View(), a)
    {
      var todo := inflight.Keys;
      keys := {};
      while todo != {}
        invariant todo <= inflight.Keys
        invariant keys == set k | k in inflight.Keys - todo && MatchesAck(k, a)
      {
        var k :| k in todo;
        todo := todo - {k};
        if MatchesAck(k, a) {
          keys := keys + {k};
        }
      }
    }

    method KeysAtBoundary(a: Ack) returns (keys: set<Key>)
      ensures keys == AtBoundary(View(), a)
    {
      var todo := inflight.Keys;
      keys := {};
      while todo != {}
        invariant todo <= inflight.Keys
        invariant keys == set k | k in inflight.Keys - todo && MatchesBoundary(k, a.sessionId, a.sequence)
      {
        var k :| k in todo;
        todo := todo - {k};
        if MatchesBoundary(k, a.sessionId, a.sequence) {
          keys := keys + {k};
        }
      }
    }

    /** `retired` is the outbox's answer; it is only asked about a durable acknowledgement. */
    method OnAck(a: Ack, now: nat, outboxReady: bool, retired: bool) returns (forward: bool)
      modifies this
      ensures var acknowledged := outboxReady && retired && Durable(a.status);
              View() == Acknowledge(old(View()), a, now, acknowledged) &&
              forward == Forwards(old(View()), a, acknowledged)
    {
      hide MatchesAck, MatchesBoundary, Matching, AtBoundary;
      var acknowledged := outboxReady && retired && Durable(a.status);
      var matching := KeysMatching(a);
      inflight := inflight - matching;
      if acknowledged {
        retryAfter := retryAfter - matching;
      } else {
        var at := now + if Durable(a.status) then REJECTED_DELAY else RetryDelay(a.status);
        retryAfter := retryAfter + map k | k in matching :: at;
      }
      assert View() == Settle(old(View()), a, now, acknowledged);
      if matching == {} {
        var boundary := KeysAtBoundary(a);
        if |boundary| == 1 {
          retryAfter := retryAfter + map k | k in boundary :: now + RetryDelay(a.status);
        }
        return false;
      }
      forward := Durable(a.status) ==> acknowledged;
    }

    method ClearInflight()
      modifies this
      ensures View() == IDLE
    {
      inflight, retryAfter := map[], map[];
    }
  }
}
