/** Answer events, their acknowledgements, and the byte strings that the client uses as keys for them. */
module AnswerEvents {
  import opened Bytes
  import opened Wire

  type Key = seq<byte>

  /** One answer of an exam. `previous` is the hash of its predecessor; `body` stands for the remaining fields. */
  datatype Event = Event(
    packageId: seq<byte>, packageDigest: Bytes32, clientId: Bytes16, sessionId: Bytes16, candidateId: seq<byte>,
    sequence: nat, finalize: bool, previous: Bytes32, body: seq<byte>)
  {
    predicate Valid() {
      0 !in packageId && |packageId| <= U32_MAX && |candidateId| <= U32_MAX && sequence <= U64_MAX
    }
  }

  datatype Status = Accepted | Duplicate | Rejected | Conflict | Gap | Unavailable
  datatype Ack = Ack(status: Status, sessionId: Bytes16, sequence: nat, hash: Bytes32)

  type Hash = Event -> Option<Bytes32>

  // ---- keys ----

  /** A failed hash leaves zeros, so that every key has the same frame. */
  function HashField(hash: Hash, e: Event): Bytes32 {
    match hash(e)
    case Some(h) => h
    case None => Zeros(32)
  }

  function EventKey(hash: Hash, e: Event): Key {
    e.sessionId + (Le(e.sequence, 8) + (HashField(hash, e) +
      (e.packageId + ([0] + (e.packageDigest + (e.clientId + e.candidateId))))))
  }

  function ContextKey(e: Event): Key {
    Text(e.packageId) + (e.packageDigest + (e.clientId + (e.sessionId + Text(e.candidateId))))
  }

  predicate SameContext(a: Event, b: Event) {
    a.packageId == b.packageId && a.packageDigest == b.packageDigest && a.clientId == b.clientId &&
    a.sessionId == b.sessionId && a.candidateId == b.candidateId
  }

  predicate Names(hash: Hash, a: Ack, e: Event) {
    a.sessionId == e.sessionId && a.sequence == e.sequence && a.hash == HashField(hash, e)
  }

  predicate MatchesBoundary(key: Key, sessionId: Bytes16, sequence: nat) {
    |key| >= 24 && key[..16] == sessionId && key[16..24] == Le(sequence, 8)
  }

  predicate MatchesAck(key: Key, a: Ack) {
    |key| >= 56 && MatchesBoundary(key, a.sessionId, a.sequence) && key[24..56] == a.hash
  }

  lemma TextSplits(p: seq<byte>, q: seq<byte>, x: seq<byte>, y: seq<byte>)
    requires |p| <= U32_MAX && |q| <= U32_MAX && Text(p) + x == Text(q) + y
    ensures p == q && x == y
  {
    hide Text, ReadText, Bound;
    FourBytes();
    TextExact(Text(p) + x, p, x);
    TextExact(Text(p) + x, q, y);
  }

  lemma PrefixSplits(p: seq<byte>, q: seq<byte>, x: seq<byte>, y: seq<byte>)
    requires |p| == |q| && p + x == q + y
    ensures p == q && x == y
  {
    assert p == (p + x)[..|p|] && q == (q + y)[..|q|];
    assert x == (p + x)[|p|..] && y == (q + y)[|q|..];
  }

  /** The length prefixes make the context key unambiguous. */
  lemma ContextKeyIdentifies(a: Event, b: Event)
    requires a.Valid() && b.Valid()
    ensures ContextKey(a) == ContextKey(b) <==> SameContext(a, b)
  {
    hide Text;
    if ContextKey(a) == ContextKey(b) {
      var tailA, tailB := a.sessionId + Text(a.candidateId), b.sessionId + Text(b.candidateId);
      TextSplits(a.packageId, b.packageId, a.packageDigest + (a.clientId + tailA),
                 b.packageDigest + (b.clientId + tailB));
      PrefixSplits(a.packageDigest, b.packageDigest, a.clientId + tailA, b.clientId + tailB);
      PrefixSplits(a.clientId, b.clientId, tailA, tailB);
      PrefixSplits(a.sessionId, b.sessionId, Text(a.candidateId), Text(b.candidateId));
      assert Text(a.candidateId) + [] == Text(b.candidateId) + [];
      TextSplits(a.candidateId, b.candidateId, [], []);
    }
  }

  lemma KeyFields(hash: Hash, e: Event)
    ensures var key := EventKey(hash, e);
            && |key| >= 56 && key[..16] == e.sessionId && key[16..24] == Le(e.sequence, 8)
            && key[24..56] == HashField(hash, e)
            && key[56..] == e.packageId + ([0] + (e.packageDigest + (e.clientId + e.candidateId)))
  {
    hide Le, HashField;
  }

  lemma LeIdentifies(x: nat, y: nat)
    requires x <= U64_MAX && y <= U64_MAX
    ensures Le(x, 8) == Le(y, 8) <==> x == y
  {
    FourBytes();
    NumberOfLe(x, 8);
    NumberOfLe(y, 8);
  }

  /** An acknowledgement matches the key of an event exactly when it names its session, sequence and hash. */
  lemma AckMatchesExactly(hash: Hash, e: Event, a: Ack)
    requires e.Valid() && a.sequence <= U64_MAX
    ensures MatchesAck(EventKey(hash, e), a) <==>
            a.sessionId == e.sessionId && a.sequence == e.sequence && a.hash == HashField(hash, e)
  {
    hide EventKey, Le, HashField;
    KeyFields(hash, e);
    LeIdentifies(e.sequence, a.sequence);
  }

  lemma {:induction false} NulTerminates(p: seq<byte>, q: seq<byte>, x: seq<byte>, y: seq<byte>)
    requires 0 !in p && 0 !in q && p + ([0] + x) == q + ([0] + y)
    ensures p == q && x == y
  {
    var s := p + ([0] + x);
    assert s[|p|] == 0 && s[|q|] == 0;
    assert forall i :: 0 <= i < |p| ==> s[i] == p[i];
    assert forall i :: 0 <= i < |q| ==> s[i] == q[i];
    assert |p| == |q|;
    assert p == s[..|p|] && q == s[..|q|];
    assert x == s[|p| + 1..] && y == s[|q| + 1..];
  }

  /** One key stands for one session, sequence and hash within one exam context. */
  lemma EventKeyIdentifies(hash: Hash, a: Event, b: Event)
    requires a.Valid() && b.Valid() && EventKey(hash, a) == EventKey(hash, b)
    ensures SameContext(a, b) && a.sequence == b.sequence && HashField(hash, a) == HashField(hash, b)
    ensures ContextKey(a) == ContextKey(b)
  {
    hide EventKey, Le, HashField, ContextKey;
    KeyFields(hash, a);
    KeyFields(hash, b);
    LeIdentifies(a.sequence, b.sequence);
    NulTerminates(a.packageId, b.packageId, a.packageDigest + (a.clientId + a.candidateId),
                  b.packageDigest + (b.clientId + b.candidateId));
    PrefixSplits(a.packageDigest, b.packageDigest, a.clientId + a.candidateId, b.clientId + b.candidateId);
    PrefixSplits(a.clientId, b.clientId, a.candidateId, b.candidateId);
    ContextKeyIdentifies(a, b);
  }
}
