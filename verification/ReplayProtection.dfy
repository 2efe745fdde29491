/** The replay protector of the authentication handshake: a bounded FIFO whose expiry times need not be sorted. */
module ReplayProtection {
  import opened Bytes

  datatype Hello = Hello(clientId: Bytes16, nonce: Bytes32, time: nat, keyId: nat)
  datatype Entry = Entry(key: seq<byte>, expires: nat)

  predicate ValidHello(h: Hello) {
    HasNonzero(h.clientId) && HasNonzero(h.nonce) && h.time != 0 && h.keyId != 0
  }

  function ReplayKey(h: Hello): seq<byte> {
    h.clientId + h.nonce
  }

  /** The two fixed-size parts can be told apart again. */
  lemma KeyIdentifies(a: Hello, b: Hello)
    ensures ReplayKey(a) == ReplayKey(b) <==> a.clientId == b.clientId && a.nonce == b.nonce
  {
    if ReplayKey(a) == ReplayKey(b) {
      assert a.clientId == ReplayKey(a)[..16] && b.clientId == ReplayKey(b)[..16];
      assert a.nonce == ReplayKey(a)[16..] && b.nonce == ReplayKey(b)[16..];
    }
  }

  datatype Limits = Limits(capacity: nat, skew: nat)
  {
    predicate Valid() {
      capacity >= 1 && 1 <= skew <= U64_MAX
    }
  }

  function Distance(a: nat, b: nat): nat {
    if a > b then a - b else b - a
  }

  function Expiry(l: Limits, h: Hello, now: nat): nat {
    Min((if now > h.time then now else h.time) + l.skew, U64_MAX)
  }

  function DropExpired(entries: seq<Entry>, now: nat): seq<Entry> {
    if entries != [] && entries[0].expires < now then DropExpired(entries[1..], now) else entries
  }

  function KeysOf(entries: seq<Entry>): set<seq<byte>> {
    set e | e in entries :: e.key
  }

  datatype Admission = Admission(entries: seq<Entry>, ok: bool)

  function Admit(l: Limits, entries: seq<Entry>, h: Hello, now: nat): Admission
    requires l.Valid()
  {
    if !ValidHello(h) || Distance(h.time, now) > l.skew then Admission(entries, false)
    else
      var live := DropExpired(entries, now);
      if ReplayKey(h) in KeysOf(live) then Admission(live, false)
      else
        var room := if |live| >= l.capacity then live[|live| - l.capacity + 1..] else live;
        Admission(room + [Entry(ReplayKey(h), Expiry(l, h, now))], true)
  }

  ghost predicate QueueOk(l: Limits, entries: seq<Entry>) {
    && |entries| <= l.capacity
    && (forall i, j :: 0 <= i < j < |entries| ==> entries[i].key != entries[j].key)
  }

  lemma {:induction false} DropsAPrefix(entries: seq<Entry>, now: nat) returns (n: nat)
    ensures n <= |entries| && DropExpired(entries, now) == entries[n..]
    ensures forall i :: 0 <= i < n ==> entries[i].expires < now
  {
    n := 0;
    if entries != [] && entries[0].expires < now {
      var m := DropsAPrefix(entries[1..], now);
      n := m + 1;
    }
  }

  /** No key twice and never more than `capacity` entries. */
  lemma AdmitKeepsQueue(l: Limits, entries: seq<Entry>, h: Hello, now: nat)
    requires l.Valid() && QueueOk(l, entries)
    ensures QueueOk(l, Admit(l, entries, h, now).entries)
  {
    var n := DropsAPrefix(entries, now);
    var live := entries[n..];
    assert forall e :: e in live ==> e.key in KeysOf(live);
  }

  // ---- runs ----

  datatype Attempt = Attempt(hello: Hello, now: nat)

  /** The queue after the first n attempts. */
  function After(l: Limits, attempts: seq<Attempt>, n: nat): seq<Entry>
    requires l.Valid() && n <= |attempts|
  {
    if n == 0 then [] else Admit(l, After(l, attempts, n - 1), attempts[n - 1].hello, attempts[n - 1].now).entries
  }

  predicate Accepted(l: Limits, attempts: seq<Attempt>, i: nat)
    requires l.Valid() && i < |attempts|
  {
    Admit(l, After(l, attempts, i), attempts[i].hello, attempts[i].now).ok
  }

  function AcceptedBetween(l: Limits, attempts: seq<Attempt>, first: nat, last: nat): nat
    requires l.Valid() && first <= last <= |attempts|
    decreases last
  {
    if first == last then 0
    else AcceptedBetween(l, attempts, first, last - 1) + if Accepted(l, attempts, last - 1) then 1 else 0
  }

  ghost predicate Clocked(attempts: seq<Attempt>) {
    (forall i, j :: 0 <= i <= j < |attempts| ==> attempts[i].now <= attempts[j].now) &&
    (forall i :: 0 <= i < |attempts| ==> attempts[i].now <= U64_MAX && attempts[i].hello.time <= U64_MAX)
  }

  lemma {:induction false} QueueAlwaysOk(l: Limits, attempts: seq<Attempt>, n: nat)
    requires l.Valid() && n <= |attempts|
    ensures QueueOk(l, After(l, attempts, n))
  {
    if n > 0 {
      QueueAlwaysOk(l, attempts, n - 1);
      AdmitKeepsQueue(l, After(l, attempts, n - 1), attempts[n - 1].hello, attempts[n - 1].now);
    }
  }

  /** The entry of the hello accepted at i, as long as it is in the queue, has behind it what was accepted since. */
  ghost predicate Held(l: Limits, attempts: seq<Attempt>, i: nat, n: nat, entry: Entry)
    requires l.Valid() && i < n <= |attempts|
  {
    var since := AcceptedBetween(l, attempts, i + 1, n);
    since < |After(l, attempts, n)| &&
    After(l, attempts, n)[|After(l, attempts, n)| - 1 - since] == entry
  }

  /** One attempt moves an unexpired entry towards the front by what it adds, or evicts it from a full queue. */
  lemma HeldByQueue(l: Limits, before: seq<Entry>, live: seq<Entry>, a: Attempt, at: nat, dropped: nat)
    requires l.Valid() && QueueOk(l, before) && dropped <= |before|
    requires live == DropExpired(before, a.now) == before[dropped..] && at < |live|
    ensures var r := Admit(l, before, a.hello, a.now);
            var fromEnd := |live| - at;
            if !r.ok then fromEnd <= |r.entries| && r.entries[|r.entries| - fromEnd] == live[at]
            else
              (fromEnd < |r.entries| && r.entries[|r.entries| - fromEnd - 1] == live[at]) || fromEnd == l.capacity
  {
  }

  lemma HeldStep(l: Limits, attempts: seq<Attempt>, i: nat, n: nat, entry: Entry)
    requires l.Valid() && i + 1 < n <= |attempts| && Held(l, attempts, i, n - 1, entry)
    ensures || Held(l, attempts, i, n, entry)
            || AcceptedBetween(l, attempts, i + 1, n) >= l.capacity
            || entry.expires < attempts[n - 1].now
  {
    var before := After(l, attempts, n - 1);
    var k := DropsAPrefix(before, attempts[n - 1].now);
    QueueAlwaysOk(l, attempts, n - 1);
    var since := AcceptedBetween(l, attempts, i + 1, n - 1);
    var at := |before| - 1 - since;
    assert before[at] == entry;
    if at >= k {
      assert before[k..][at - k] == entry;
      HeldByQueue(l, before, before[k..], attempts[n - 1], at - k, k);
      hide Admit, QueueOk, DropExpired;
      assert AcceptedBetween(l, attempts, i + 1, n) == since + if Accepted(l, attempts, n - 1) then 1 else 0;
    }
  }

  /**
   * After an acceptance the entry is still held, or `capacity` others have been accepted since, or its expiry time
   * has passed.
   */
  lemma {:induction false} HeldUntil(l: Limits, attempts: seq<Attempt>, i: nat, n: nat)
    requires l.Valid() && Clocked(attempts)
    requires i < n <= |attempts| && Accepted(l, attempts, i)
    ensures var entry := Entry(ReplayKey(attempts[i].hello), Expiry(l, attempts[i].hello, attempts[i].now));
            || Held(l, attempts, i, n, entry)
            || AcceptedBetween(l, attempts, i + 1, n) >= l.capacity
            || entry.expires < attempts[n - 1].now
    decreases n
  {
    if n > i + 1 {
      HeldUntil(l, attempts, i, n - 1);
      var entry := Entry(ReplayKey(attempts[i].hello), Expiry(l, attempts[i].hello, attempts[i].now));
      if Held(l, attempts, i, n - 1, entry) {
        HeldStep(l, attempts, i, n, entry);
      } else {
        assert attempts[n - 2].now <= attempts[n - 1].now;
      }
    }
  }

  lemma EntryKeyHeld(l: Limits, attempts: seq<Attempt>, i: nat, n: nat, entry: Entry)
    requires l.Valid() && i < n < |attempts| && Held(l, attempts, i, n, entry)
    requires Accepted(l, attempts, n) && ReplayKey(attempts[n].hello) == entry.key
    ensures entry.expires < attempts[n].now
  {
    var queue := After(l, attempts, n);
    var at := |queue| - 1 - AcceptedBetween(l, attempts, i + 1, n);
    var k := DropsAPrefix(queue, attempts[n].now);
    forall x | k <= x < |queue|
      ensures queue[x].key in KeysOf(queue[k..])
    {
      assert queue[x] == queue[k..][x - k];
    }
  }

  /** A client and nonce are accepted again only after `capacity` other hellos, or after the first entry's expiry. */
  lemma SameKeyAcceptedAgain(l: Limits, attempts: seq<Attempt>, i: nat, j: nat)
    requires l.Valid() && Clocked(attempts)
    requires i < j < |attempts| && Accepted(l, attempts, i) && Accepted(l, attempts, j)
    requires ReplayKey(attempts[i].hello) == ReplayKey(attempts[j].hello)
    ensures AcceptedBetween(l, attempts, i + 1, j) >= l.capacity ||
            Expiry(l, attempts[i].hello, attempts[i].now) < attempts[j].now
  {
    HeldUntil(l, attempts, i, j);
    var entry := Entry(ReplayKey(attempts[i].hello), Expiry(l, attempts[i].hello, attempts[i].now));
    if Held(l, attempts, i, j, entry) {
      EntryKeyHeld(l, attempts, i, j, entry);
    }
  }

  /** An identical hello is never accepted twice unless at least `capacity` others were accepted in between. */
  lemma NoReplay(l: Limits, attempts: seq<Attempt>, i: nat, j: nat)
    requires l.Valid() && Clocked(attempts)
    requires i < j < |attempts| && attempts[i].hello == attempts[j].hello
    requires Accepted(l, attempts, i) && Accepted(l, attempts, j)
    ensures AcceptedBetween(l, attempts, i + 1, j) >= l.capacity
  {
    SameKeyAcceptedAgain(l, attempts, i, j);
  }

  /** An entry of this client and nonce that is still in force: one of those up to it has not expired. */
  ghost predicate InForce(entries: seq<Entry>, h: Hello, now: nat) {
    exists k, n :: 0 <= k <= n < |entries| && entries[k].expires >= now && entries[n].key == ReplayKey(h)
  }

  /** A hello is accepted exactly when it is well formed, within the clock skew on either side, and not in force. */
  lemma AdmitsIff(l: Limits, entries: seq<Entry>, h: Hello, now: nat)
    requires l.Valid()
    ensures Admit(l, entries, h, now).ok <==>
            && HasNonzero(h.clientId) && HasNonzero(h.nonce) && h.time > 0 && h.keyId > 0
            && h.time <= now + l.skew && now <= h.time + l.skew
            && !InForce(entries, h, now)
  {
    var n := DropsAPrefix(entries, now);
    var live := DropExpired(entries, now);
    FirstIsLive(entries, now);
    if ReplayKey(h) in KeysOf(live) {
      var e :| e in live && e.key == ReplayKey(h);
      var i :| 0 <= i < |live| && live[i] == e;
      assert entries[n].expires >= now && entries[n + i].key == ReplayKey(h);
    }
    if k, i :| 0 <= k <= i < |entries| && entries[k].expires >= now && entries[i].key == ReplayKey(h) {
      assert live[i - n] in live && live[i - n] == entries[i];
    }
  }

  lemma {:induction false} FirstIsLive(entries: seq<Entry>, now: nat)
    ensures DropExpired(entries, now) != [] ==> DropExpired(entries, now)[0].expires >= now
  {
    if entries != [] && entries[0].expires < now {
      FirstIsLive(entries[1..], now);
    }
  }

  /** What the queue holds was accepted, with its expiry. */
  lemma {:induction false} HeldWasAccepted(l: Limits, attempts: seq<Attempt>, n: nat)
    requires l.Valid() && n <= |attempts|
    ensures forall e :: e in After(l, attempts, n) ==>
              exists i :: 0 <= i < n && Accepted(l, attempts, i) && ReplayKey(attempts[i].hello) == e.key
  {
    if n > 0 {
      HeldWasAccepted(l, attempts, n - 1);
      var before, a := After(l, attempts, n - 1), attempts[n - 1];
      AddsOneKey(l, before, a.hello, a.now);
      hide Admit;
      forall e | e in After(l, attempts, n)
        ensures exists i :: 0 <= i < n && Accepted(l, attempts, i) && ReplayKey(attempts[i].hello) == e.key
      {
        if e !in before {
          assert Accepted(l, attempts, n - 1);
        }
      }
    }
  }

  lemma AddsOneKey(l: Limits, entries: seq<Entry>, h: Hello, now: nat)
    requires l.Valid()
    ensures var r := Admit(l, entries, h, now);
            forall e :: e in r.entries ==> e in entries || (r.ok && e.key == ReplayKey(h))
  {
    hide KeysOf;
    var n := DropsAPrefix(entries, now);
  }

  /**
   * In every run a well-formed hello within the clock skew whose client and nonce have not been accepted before is
   * accepted.
   */
  lemma NewHelloAccepted(l: Limits, attempts: seq<Attempt>, n: nat)
    requires l.Valid() && n < |attempts|
    requires forall i :: 0 <= i < n && Accepted(l, attempts, i) ==>
               attempts[i].hello.clientId != attempts[n].hello.clientId ||
               attempts[i].hello.nonce != attempts[n].hello.nonce
    ensures var h, now := attempts[n].hello, attempts[n].now;
            Accepted(l, attempts, n) <==>
            && HasNonzero(h.clientId) && HasNonzero(h.nonce) && h.time > 0 && h.keyId > 0
            && h.time <= now + l.skew && now <= h.time + l.skew
  {
    hide Admit, After;
    var queue, h := After(l, attempts, n), attempts[n].hello;
    AdmitsIff(l, queue, h, attempts[n].now);
    HeldWasAccepted(l, attempts, n);
    forall k | 0 <= k < |queue|
      ensures queue[k].key != ReplayKey(h)
    {
      assert queue[k] in queue;
      var i :| 0 <= i < n && Accepted(l, attempts, i) && ReplayKey(attempts[i].hello) == queue[k].key;
      KeyIdentifies(attempts[i].hello, h);
    }
  }

  // ---- the object ----

  class ReplayProtector {
    const limits: Limits
    var entries: seq<Entry>
    var keys: set<seq<byte>>

    ghost predicate Valid()
      reads this
    {
      limits.Valid() && QueueOk(limits, entries) && keys == KeysOf(entries)
    }

    constructor (capacity: nat, maximumClockSkew: int)
      requires maximumClockSkew <= U64_MAX
      ensures Valid() && entries == []
      ensures limits ==
              Limits(if capacity < 1 then 1 else capacity, if maximumClockSkew < 1 then 1 else maximumClockSkew)
    {
      limits := Limits(if capacity < 1 then 1 else capacity, if maximumClockSkew < 1 then 1 else maximumClockSkew);
      entries, keys := [], {};
    }

    method PopFront()
      requires Valid() && entries != []
      modifies this
      ensures Valid() && entries == old(entries)[1..]
    {
      var front := entries[0];
      assert KeysOf(entries) == {front.key} + KeysOf(entries[1..]) by {
        assert entries == [front] + entries[1..];
      }
      assert front.key !in KeysOf(entries[1..]);
      keys := keys - {front.key};
      entries := entries[1..];
    }

    method DiscardExpired(now: nat)
      requires Valid()
      modifies this
      ensures Valid() && entries == DropExpired(old(entries), now)
    {
      while entries != [] && entries[0].expires < now
        invariant Valid()
        invariant DropExpired(entries, now) == DropExpired(old(entries), now)
        decreases |entries|
      {
        PopFront();
      }
    }

    method MakeRoom()
      requires Valid()
      modifies this
      ensures Valid() && |entries| < limits.capacity
      ensures entries == if |old(entries)| >= limits.capacity then old(entries)[|old(entries)| - limits.capacity + 1..]
                         else old(entries)
    {
      while |entries| >= limits.capacity
        invariant Valid() && |entries| <= |old(entries)| && entries == old(entries)[|old(entries)| - |entries|..]
        invariant |entries| >= limits.capacity - 1 || entries == old(entries)
        decreases |entries|
      {
        PopFront();
      }
    }

    method Accept(h: Hello, now: nat) returns (ok: bool)
      requires Valid()
      modifies this
      ensures Valid()
      ensures Admission(entries, ok) == Admit(limits, old(entries), h, now)
    {
      if !ValidHello(h) || Distance(h.time, now) > limits.skew {
        return false;
      }
      AdmitKeepsQueue(limits, entries, h, now);
      DiscardExpired(now);
      var key := ReplayKey(h);
      if key in keys {
        return false;
      }
      MakeRoom();
      var pushed := Entry(key, Expiry(limits, h, now));
      assert KeysOf(entries + [pushed]) == KeysOf(entries) + {key};
      keys := keys + {key};
      entries := entries + [pushed];
      ok := true;
    }

    method Clear()
      requires Valid()
      modifies this
      ensures Valid() && entries == []
    {
      entries, keys := [], {};
    }
  }
}
