/** The protected state file: its layout, its parser, and why loading a saved file gives back the saved image. */
module StateCodec {
  import opened Bytes
  import opened Lifecycle
  import opened TelemetryModel
  import opened Wire

  const STATE_MAGIC: nat := 0x544c_4d53
  const STATE_VERSION: nat := 3

  /** The previous version, still read: no age of the pending batch was saved, so it must not hold one. */
  const OLD_VERSION: nat := 2

  predicate Readable(version: nat) {
    version == OLD_VERSION || version == STATE_VERSION
  }

  /** A state file's content with the version it was written in; an old one is rewritten by the next publication. */
  datatype Stored = Stored(version: nat, img: Image)

  /** The batch codec; an empty encoding is a refusal. */
  datatype BatchCodec = BatchCodec(encode: Batch -> seq<byte>, decode: seq<byte> -> Option<Batch>)
  {
    /** Decoding accepts exactly the encodings. */
    ghost predicate Faithful() {
      && (forall s, b :: s != [] ==> (decode(s) == Some(b) <==> encode(b) == s))
      && (forall b :: |encode(b)| <= MAX_BATCH_BYTES)
    }
  }

  function StateByte(s: State): byte {
    match s
    case Disabled => 0
    case Enabled => 1
    case Suspended => 2
    case Revoked => 3
  }

  function StateOf(b: byte): Option<State> {
    if b == 0 then Some(Disabled) else if b == 1 then Some(Enabled) else if b == 2 then Some(Suspended)
    else if b == 3 then Some(Revoked) else None
  }

  // ---- layout ----

  function IdentityBytes(id: Identity): seq<byte> {
    Text(id.packageId) + (id.packageDigest + (id.clientId + (id.sessionId + Text(id.candidateId))))
  }

  function IdentitiesBytes(ids: seq<Identity>): seq<byte> {
    if ids == [] then [] else IdentityBytes(ids[0]) + IdentitiesBytes(ids[1..])
  }

  /** Header, context and producer: everything before the loss counters. */
  datatype Head = Head(context: Identity, producer: Producer, nextSeq: nat, generations: nat, state: State)

  function HeadBytes(version: nat, h: Head): seq<byte> {
    Le(STATE_MAGIC, 4) + (Le(version, 2) + (Le(0, 2) + (IdentityBytes(h.context) + (h.producer +
      (Le(h.nextSeq, 8) + (Le(h.generations, 4) + [StateByte(h.state)]))))))
  }

  datatype Losses = Losses(samples: nat, batches: nat, refused: nat, first: nat)

  function LossBytes(l: Losses): seq<byte> {
    Le(l.samples, 8) + (Le(l.batches, 8) + (Le(l.refused, 8) + Le(l.first, 8)))
  }

  datatype Intent = Intent(started: nat, pending: Option<Batch>)

  function PendingBytes(c: BatchCodec, pending: Option<Batch>): seq<byte> {
    if pending.None? then [] else c.encode(pending.value)
  }

  function IntentBytes(c: BatchCodec, version: nat, i: Intent): seq<byte> {
    (if version == OLD_VERSION then [] else Le(i.started, 8)) + Text(PendingBytes(c, i.pending))
  }

  function HeadOf(img: Image): Head {
    Head(img.context, img.producer, img.nextSeq, img.generations, img.state)
  }

  function LossesOf(img: Image): Losses {
    Losses(img.droppedSamples, img.droppedBatches, img.notAuthorized, img.lossFirst)
  }

  function Assemble(h: Head, l: Losses, revoked: seq<Identity>, i: Intent): Image {
    Image(h.context, h.producer, h.nextSeq, h.generations, h.state, l.samples, l.batches, l.refused, l.first,
          revoked, i.started, i.pending)
  }

  function Payload(c: BatchCodec, version: nat, img: Image): seq<byte> {
    HeadBytes(version, HeadOf(img)) + (LossBytes(LossesOf(img)) + (Le(|img.revoked|, 4) +
      (IdentitiesBytes(img.revoked) + IntentBytes(c, version, Intent(img.pendingStarted, img.pending)))))
  }

  // ---- what the fields can hold ----

  predicate IdentityFits(id: Identity) {
    |id.packageId| <= U32_MAX && |id.candidateId| <= U32_MAX
  }

  predicate HeadFits(h: Head) {
    IdentityFits(h.context) && h.nextSeq <= U64_MAX && h.generations <= U32_MAX
  }

  predicate LossesFit(l: Losses) {
    l.samples <= U64_MAX && l.batches <= U64_MAX && l.refused <= U64_MAX && l.first <= U64_MAX
  }

  predicate IntentFits(c: BatchCodec, version: nat, i: Intent) {
    i.started <= U64_MAX && (i.pending.Some? ==> c.encode(i.pending.value) != []) &&
    (version == OLD_VERSION ==> i == Intent(0, None))
  }

  predicate Fits(c: BatchCodec, version: nat, img: Image) {
    Readable(version) && HeadFits(HeadOf(img)) && LossesFit(LossesOf(img)) && |img.revoked| <= MAX_REVOKED &&
    (forall id :: id in img.revoked ==> IdentityFits(id)) && 
    IntentFits(c, version, Intent(img.pendingStarted, img.pending))
  }

  // ---- parser ----

  function ReadIdentity(s: seq<byte>): Parsed<Identity> {
    var package := ReadText(s);
    if package.Malformed? then Malformed else
    var digest := ReadBytes(package.rest, 32);
    if digest.Malformed? then Malformed else
    var client := ReadBytes(digest.rest, 16);
    if client.Malformed? then Malformed else
    var session := ReadBytes(client.rest, 16);
    if session.Malformed? then Malformed else
    var candidate := ReadText(session.rest);
    if candidate.Malformed? then Malformed else
    Parsed(Identity(package.value, digest.value, client.value, session.value, candidate.value), candidate.rest)
  }

  function ReadIdentities(s: seq<byte>, count: nat): Parsed<seq<Identity>>
    decreases count
  {
    if count == 0 then Parsed([], s) else
    var first := ReadIdentity(s);
    if first.Malformed? then Malformed else
    var others := ReadIdentities(first.rest, count - 1);
    if others.Malformed? then Malformed else Parsed([first.value] + others.value, others.rest)
  }

  function ReadPreamble(s: seq<byte>): Parsed<nat> {
    var magic := ReadLe(s, 4);
    if magic.Malformed? || magic.value != STATE_MAGIC then Malformed else
    var version := ReadLe(magic.rest, 2);
    if version.Malformed? || !Readable(version.value) then Malformed else
    var reserved := ReadLe(version.rest, 2);
    if reserved.Malformed? || reserved.value != 0 then Malformed else Parsed(version.value, reserved.rest)
  }

  function ReadHead(s: seq<byte>): Parsed<(nat, Head)> {
    var preamble := ReadPreamble(s);
    if preamble.Malformed? then Malformed else
    var context := ReadIdentity(preamble.rest);
    if context.Malformed? then Malformed else
    var producer := ReadBytes(context.rest, 16);
    if producer.Malformed? then Malformed else
    var sequence := ReadLe(producer.rest, 8);
    if sequence.Malformed? then Malformed else
    var generations := ReadLe(sequence.rest, 4);
    if generations.Malformed? then Malformed else
    var raw := ReadBytes(generations.rest, 1);
    if raw.Malformed? || StateOf(raw.value[0]).None? then Malformed else
    Parsed((preamble.value, Head(context.value, producer.value, sequence.value, generations.value,
                                 StateOf(raw.value[0]).value)), raw.rest)
  }

  function ReadLosses(s: seq<byte>): Parsed<Losses> {
    var samples := ReadLe(s, 8);
    if samples.Malformed? then Malformed else
    var batches := ReadLe(samples.rest, 8);
    if batches.Malformed? then Malformed else
    var refused := ReadLe(batches.rest, 8);
    if refused.Malformed? then Malformed else
    var first := ReadLe(refused.rest, 8);
    if first.Malformed? then Malformed else
    Parsed(Losses(samples.value, batches.value, refused.value, first.value), first.rest)
  }

  /** The pending batch fills the rest of the payload exactly. */
  function ReadIntent(c: BatchCodec, version: nat, s: seq<byte>): Option<Intent> {
    var started := if version == OLD_VERSION then Parsed(0, s) else ReadLe(s, 8);
    if started.Malformed? then None else
    var size := ReadLe(started.rest, 4);
    if size.Malformed? || size.value > MAX_BATCH_BYTES || size.value != |size.rest| then None
    else if size.value == 0 then Some(Intent(started.value, None))
    else if version == OLD_VERSION || c.decode(size.rest).None? then None
    else Some(Intent(started.value, c.decode(size.rest)))
  }

  function Parse(c: BatchCodec, s: seq<byte>): Option<Stored> {
    var head := ReadHead(s);
    if head.Malformed? then None else
    var losses := ReadLosses(head.rest);
    if losses.Malformed? then None else
    var count := ReadLe(losses.rest, 4);
    if count.Malformed? || count.value > MAX_REVOKED then None else
    var revoked := ReadIdentities(count.rest, count.value);
    if revoked.Malformed? then None else
    var intent := ReadIntent(c, head.value.0, revoked.rest);
    if intent.None? then None
    else Some(Stored(head.value.0, Assemble(head.value.1, losses.value, revoked.value, intent.value)))
  }

  // ---- each part is read exactly where it was written ----

  lemma IdentityExact(s: seq<byte>, id: Identity, rest: seq<byte>)
    ensures ReadIdentity(s) == Parsed(id, rest) <==> IdentityFits(id) && s == IdentityBytes(id) + rest
  {
    hide ReadText, ReadBytes, Text, Bound;
    FourBytes();
    var r4 := Text(id.candidateId) + rest;
    var r3 := id.sessionId + r4;
    var r2 := id.clientId + r3;
    var r1 := id.packageDigest + r2;
    assert IdentityBytes(id) + rest == Text(id.packageId) + r1;
    if ReadIdentity(s) == Parsed(id, rest) {
      var a := ReadText(s);
      TextExact(s, a.value, a.rest);
      var b := ReadBytes(a.rest, 32);
      BytesExact(a.rest, 32, b.value, b.rest);
      var c := ReadBytes(b.rest, 16);
      BytesExact(b.rest, 16, c.value, c.rest);
      var d := ReadBytes(c.rest, 16);
      BytesExact(c.rest, 16, d.value, d.rest);
      TextExact(d.rest, id.candidateId, rest);
    }
    if IdentityFits(id) && s == IdentityBytes(id) + rest {
      TextExact(s, id.packageId, r1);
      BytesExact(r1, 32, id.packageDigest, r2);
      BytesExact(r2, 16, id.clientId, r3);
      BytesExact(r3, 16, id.sessionId, r4);
      TextExact(r4, id.candidateId, rest);
    }
  }

  lemma {:induction false} IdentitiesExact(s: seq<byte>, ids: seq<Identity>, rest: seq<byte>)
    ensures ReadIdentities(s, |ids|) == Parsed(ids, rest) <==>
            (forall id :: id in ids ==> IdentityFits(id)) && s == IdentitiesBytes(ids) + rest
    decreases |ids|
  {
    hide ReadIdentity, IdentityBytes, IdentityFits;
    if ids == [] {
      assert IdentitiesBytes(ids) + rest == rest;
    } else {
      var others := IdentitiesBytes(ids[1..]) + rest;
      assert IdentitiesBytes(ids) + rest == IdentityBytes(ids[0]) + others;
      assert ids == [ids[0]] + ids[1..];
      if ReadIdentities(s, |ids|) == Parsed(ids, rest) {
        var first := ReadIdentity(s);
        var tail := ReadIdentities(first.rest, |ids| - 1);
        assert [first.value] + tail.value == ids;
        assert first.value == ids[0] && tail.value == ids[1..];
        IdentityExact(s, first.value, first.rest);
        IdentitiesExact(first.rest, ids[1..], rest);
      }
      if (forall id :: id in ids ==> IdentityFits(id)) && s == IdentitiesBytes(ids) + rest {
        IdentityExact(s, ids[0], others);
        IdentitiesExact(others, ids[1..], rest);
      }
    }
  }

  lemma {:induction false} IdentitiesCounted(s: seq<byte>, count: nat)
    ensures ReadIdentities(s, count).Parsed? ==> |ReadIdentities(s, count).value| == count
    decreases count
  {
    hide ReadIdentity;
    if count > 0 && ReadIdentities(s, count).Parsed? {
      IdentitiesCounted(ReadIdentity(s).rest, count - 1);
    }
  }

  function Preamble(version: nat): seq<byte> {
    Le(STATE_MAGIC, 4) + (Le(version, 2) + Le(0, 2))
  }

  lemma PreambleExact(s: seq<byte>, version: nat, rest: seq<byte>)
    ensures ReadPreamble(s) == Parsed(version, rest) <==> Readable(version) && s == Preamble(version) + rest
  {
    hide ReadLe, Le, Bound;
    FourBytes();
    var r2 := Le(0, 2) + rest;
    var r1 := Le(version, 2) + r2;
    assert Preamble(version) + rest == Le(STATE_MAGIC, 4) + r1;
    if ReadPreamble(s) == Parsed(version, rest) {
      var a := ReadLe(s, 4);
      LeExact(s, 4, a.value, a.rest);
      var b := ReadLe(a.rest, 2);
      LeExact(a.rest, 2, b.value, b.rest);
      LeExact(b.rest, 2, 0, rest);
    }
    if Readable(version) && s == Preamble(version) + rest {
      LeExact(s, 4, STATE_MAGIC, r1);
      LeExact(r1, 2, version, r2);
      LeExact(r2, 2, 0, rest);
    }
  }

  lemma StateByteExact(b: byte, s: State)
    ensures StateOf(b) == Some(s) <==> b == StateByte(s)
  {
  }

  lemma HeadExact(s: seq<byte>, version: nat, h: Head, rest: seq<byte>)
    ensures ReadHead(s) == Parsed((version, h), rest) <==>
            Readable(version) && HeadFits(h) && s == HeadBytes(version, h) + rest
  {
    hide ReadPreamble, Preamble, ReadIdentity, IdentityBytes, IdentityFits, ReadLe, ReadBytes, Le, Bound, StateOf,
         StateByte;
    FourBytes();
    var r5 := [StateByte(h.state)] + rest;
    var r4 := Le(h.generations, 4) + r5;
    var r3 := Le(h.nextSeq, 8) + r4;
    var r2 := h.producer + r3;
    var r1 := IdentityBytes(h.context) + r2;
    HeadLayout(version, h, rest);
    if ReadHead(s) == Parsed((version, h), rest) {
      var a := ReadPreamble(s);
      PreambleExact(s, version, a.rest);
      var b := ReadIdentity(a.rest);
      IdentityExact(a.rest, b.value, b.rest);
      var c := ReadBytes(b.rest, 16);
      BytesExact(b.rest, 16, c.value, c.rest);
      var d := ReadLe(c.rest, 8);
      LeExact(c.rest, 8, d.value, d.rest);
      var e := ReadLe(d.rest, 4);
      LeExact(d.rest, 4, e.value, e.rest);
      var f := ReadBytes(e.rest, 1);
      BytesExact(e.rest, 1, f.value, f.rest);
      StateByteExact(f.value[0], h.state);
      assert f.value == [StateByte(h.state)];
    }
    if Readable(version) && HeadFits(h) && s == HeadBytes(version, h) + rest {
      PreambleExact(s, version, r1);
      IdentityExact(r1, h.context, r2);
      BytesExact(r2, 16, h.producer, r3);
      LeExact(r3, 8, h.nextSeq, r4);
      LeExact(r4, 4, h.generations, r5);
      BytesExact(r5, 1, [StateByte(h.state)], rest);
      StateByteExact(StateByte(h.state), h.state);
    }
  }

  lemma HeadLayout(version: nat, h: Head, rest: seq<byte>)
    ensures HeadBytes(version, h) + rest ==
            Preamble(version) + (IdentityBytes(h.context) + (h.producer + (Le(h.nextSeq, 8) +
              (Le(h.generations, 4) + ([StateByte(h.state)] + rest)))))
  {
    hide Le, IdentityBytes, StateByte;
  }

  lemma LossesExact(s: seq<byte>, l: Losses, rest: seq<byte>)
    ensures ReadLosses(s) == Parsed(l, rest) <==> LossesFit(l) && s == LossBytes(l) + rest
  {
    hide ReadLe, Le, Bound;
    FourBytes();
    var r3 := Le(l.first, 8) + rest;
    var r2 := Le(l.refused, 8) + r3;
    var r1 := Le(l.batches, 8) + r2;
    assert LossBytes(l) + rest == Le(l.samples, 8) + r1;
    if ReadLosses(s) == Parsed(l, rest) {
      var a := ReadLe(s, 8);
      LeExact(s, 8, a.value, a.rest);
      var b := ReadLe(a.rest, 8);
      LeExact(a.rest, 8, b.value, b.rest);
      var c := ReadLe(b.rest, 8);
      LeExact(b.rest, 8, c.value, c.rest);
      LeExact(c.rest, 8, l.first, rest);
    }
    if LossesFit(l) && s == LossBytes(l) + rest {
      LeExact(s, 8, l.samples, r1);
      LeExact(r1, 8, l.batches, r2);
      LeExact(r2, 8, l.refused, r3);
      LeExact(r3, 8, l.first, rest);
    }
  }

  lemma IntentExact(c: BatchCodec, version: nat, s: seq<byte>, i: Intent)
    requires c.Faithful()
    ensures ReadIntent(c, version, s) == Some(i) <==> IntentFits(c, version, i) && s == IntentBytes(c, version, i)
  {
    hide ReadLe, Le, Bound;
    FourBytes();
    var pb := PendingBytes(c, i.pending);
    var r := Le(|pb|, 4) + pb;
    var legacy := version == OLD_VERSION;
    assert IntentBytes(c, version, i) == if legacy then r else Le(i.started, 8) + r;
    if ReadIntent(c, version, s) == Some(i) {
      var a := if legacy then Parsed(0, s) else ReadLe(s, 8);
      if !legacy {
        LeExact(s, 8, a.value, a.rest);
      }
      var b := ReadLe(a.rest, 4);
      LeExact(a.rest, 4, b.value, b.rest);
      assert b.rest == pb;
    }
    if IntentFits(c, version, i) && s == IntentBytes(c, version, i) {
      if !legacy {
        LeExact(s, 8, i.started, r);
      }
      LeExact(r, 4, |pb|, pb);
    }
  }

  /** In either version the parser accepts exactly the payloads of representable images, and reads back the image. */
  lemma PayloadExact(c: BatchCodec, s: seq<byte>, version: nat, img: Image)
    requires c.Faithful()
    ensures Parse(c, s) == Some(Stored(version, img)) <==> Fits(c, version, img) && s == Payload(c, version, img)
  {
    hide ReadHead, HeadBytes, HeadFits, ReadLosses, LossBytes, LossesFit, ReadIdentities, IdentitiesBytes,
         IdentityFits, ReadIntent, IntentBytes, IntentFits, ReadLe, Le, Bound, BatchCodec.Faithful;
    FourBytes();
    var i := Intent(img.pendingStarted, img.pending);
    var r3 := IdentitiesBytes(img.revoked) + IntentBytes(c, version, i);
    var r2 := Le(|img.revoked|, 4) + r3;
    var r1 := LossBytes(LossesOf(img)) + r2;
    assert Payload(c, version, img) == HeadBytes(version, HeadOf(img)) + r1;
    if Parse(c, s) == Some(Stored(version, img)) {
      var a := ReadHead(s);
      HeadExact(s, version, HeadOf(img), a.rest);
      var b := ReadLosses(a.rest);
      LossesExact(a.rest, LossesOf(img), b.rest);
      var n := ReadLe(b.rest, 4);
      LeExact(b.rest, 4, n.value, n.rest);
      var ids := ReadIdentities(n.rest, n.value);
      IdentitiesCounted(n.rest, n.value);
      IdentitiesExact(n.rest, img.revoked, ids.rest);
      IntentExact(c, version, ids.rest, i);
    }
    if Fits(c, version, img) && s == Payload(c, version, img) {
      HeadExact(s, version, HeadOf(img), r1);
      LossesExact(r1, LossesOf(img), r2);
      LeExact(r2, 4, |img.revoked|, r3);
      IdentitiesExact(r3, img.revoked, IntentBytes(c, version, i));
      IntentExact(c, version, IntentBytes(c, version, i), i);
    }
  }

  // ---- the sealed file ----

  /** The file content before machine protection: the payload and its digest. */
  function Seal(digest: seq<byte> -> Bytes32, payload: seq<byte>): seq<byte> {
    payload + digest(payload)
  }

  function Unseal(digest: seq<byte> -> Bytes32, file: seq<byte>): Option<seq<byte>> {
    if |file| < 64 then None
    else
      var payload := file[..|file| - 32];
      if file[|file| - 32..] == digest(payload) then Some(payload) else None
  }

  function LoadFile(c: BatchCodec, digest: seq<byte> -> Bytes32, file: seq<byte>): Option<Stored> {
    match Unseal(digest, file)
    case None => None
    case Some(payload) => Parse(c, payload)
  }

  lemma PayloadLength(c: BatchCodec, version: nat, img: Image)
    ensures |Payload(c, version, img)| >= 32
  {
    hide IdentitiesBytes, PendingBytes, Le, IdentityBytes;
  }

  lemma UnsealExact(digest: seq<byte> -> Bytes32, file: seq<byte>, payload: seq<byte>)
    requires |payload| >= 32
    ensures Unseal(digest, file) == Some(payload) <==> file == Seal(digest, payload)
  {
    if Unseal(digest, file) == Some(payload) {
      assert file == file[..|file| - 32] + file[|file| - 32..];
    }
    if file == Seal(digest, payload) {
      assert file[..|file| - 32] == payload && file[|file| - 32..] == digest(payload);
    }
  }

  /** Loading accepts exactly the sealed payloads of representable images. */
  lemma FileExact(c: BatchCodec, digest: seq<byte> -> Bytes32, file: seq<byte>, version: nat, img: Image)
    requires c.Faithful()
    ensures LoadFile(c, digest, file) == Some(Stored(version, img)) <==>
            Fits(c, version, img) && file == Seal(digest, Payload(c, version, img))
  {
    hide Parse, Fits, BatchCodec.Faithful, Unseal, Seal, Payload;
    PayloadLength(c, version, img);
    UnsealExact(digest, file, Payload(c, version, img));
    if Unseal(digest, file).Some? {
      PayloadExact(c, Unseal(digest, file).value, version, img);
    }
    PayloadExact(c, Payload(c, version, img), version, img);
  }

  // ---- the writer and the reader as the service runs them ----

  method AppendIdentity(out: Buffer, id: Identity)
    modifies out
    ensures out.bytes == old(out.bytes) + IdentityBytes(id)
  {
    hide Text;
    out.AppendText(id.packageId);
    out.AppendBytes(id.packageDigest);
    out.AppendBytes(id.clientId);
    out.AppendBytes(id.sessionId);
    out.AppendText(id.candidateId);
  }

  lemma IdentitiesSnoc(ids: seq<Identity>, i: nat)
    requires i < |ids|
    ensures IdentitiesBytes(ids[..i + 1]) == IdentitiesBytes(ids[..i]) + IdentityBytes(ids[i])
  {
    hide IdentityBytes;
    if i > 0 {
      IdentitiesSnoc(ids[1..], i - 1);
      assert ids[1..][..i] == ids[..i + 1][1..] && ids[1..][..i - 1] == ids[..i][1..];
    }
  }

  method AppendIdentities(out: Buffer, ids: seq<Identity>)
    modifies out
    ensures out.bytes == old(out.bytes) + IdentitiesBytes(ids)
  {
    hide IdentityBytes;
    for i := 0 to |ids|
      invariant out.bytes == old(out.bytes) + IdentitiesBytes(ids[..i])
    {
      AppendIdentity(out, ids[i]);
      IdentitiesSnoc(ids, i);
    }
    assert ids[..|ids|] == ids;
  }

  method AppendHead(out: Buffer, h: Head)
    modifies out
    ensures out.bytes == old(out.bytes) + HeadBytes(STATE_VERSION, h)
  {
    hide Le, IdentityBytes, StateByte;
    out.AppendLe(STATE_MAGIC, 4);
    out.AppendLe(STATE_VERSION, 2);
    out.AppendLe(0, 2);
    AppendIdentity(out, h.context);
    out.AppendBytes(h.producer);
    out.AppendLe(h.nextSeq, 8);
    out.AppendLe(h.generations, 4);
    out.AppendBytes([StateByte(h.state)]);
    assert old(out.bytes) + HeadBytes(STATE_VERSION, h) == out.bytes by {
      HeadLayout(STATE_VERSION, h, []);
    }
  }

  method AppendLosses(out: Buffer, l: Losses)
    modifies out
    ensures out.bytes == old(out.bytes) + LossBytes(l)
  {
    hide Le;
    out.AppendLe(l.samples, 8);
    out.AppendLe(l.batches, 8);
    out.AppendLe(l.refused, 8);
    out.AppendLe(l.first, 8);
  }

  /** Refuses exactly the images whose pending batch the codec refuses. */
  method EncodeState(c: BatchCodec, digest: seq<byte> -> Bytes32, img: Image) returns (file: Option<seq<byte>>)
    ensures file == if img.pending.Some? && c.encode(img.pending.value) == [] then None
                    else Some(Seal(digest, Payload(c, STATE_VERSION, img)))
  {
    hide HeadBytes, LossBytes, IdentitiesBytes, Le;
    var out := new Buffer();
    AppendHead(out, HeadOf(img));
    AppendLosses(out, LossesOf(img));
    out.AppendLe(|img.revoked|, 4);
    AppendIdentities(out, img.revoked);
    var pending := if img.pending.Some? then c.encode(img.pending.value) else [];
    if img.pending.Some? && pending == [] {
      return None;
    }
    out.AppendLe(img.pendingStarted, 8);
    out.AppendText(pending);
    assert out.bytes == Payload(c, STATE_VERSION, img);
    out.AppendBytes(digest(out.bytes));
    return Some(out.bytes);
  }

  method TakeIdentity(input: Cursor) returns (ok: bool, id: Identity)
    requires input.Valid()
    modifies input`offset
    ensures input.Valid()
    ensures if ok then ReadIdentity(old(input.Rest())) == Parsed(id, input.Rest())
            else ReadIdentity(old(input.Rest())).Malformed?
  {
    hide ReadText, ReadBytes;
    id := UNBOUND;
    var package, digest, client, session, candidate;
    ok, package := input.TakeText();
    if !ok {
      return;
    }
    ok, digest := input.TakeBytes(32);
    if !ok {
      return;
    }
    ok, client := input.TakeBytes(16);
    if !ok {
      return;
    }
    ok, session := input.TakeBytes(16);
    if !ok {
      return;
    }
    ok, candidate := input.TakeText();
    if ok {
      id := Identity(package, digest, client, session, candidate);
    }
  }

  method TakePreamble(input: Cursor) returns (ok: bool, version: nat)
    requires input.Valid()
    modifies input`offset
    ensures input.Valid()
    ensures if ok then ReadPreamble(old(input.Rest())) == Parsed(version, input.Rest())
            else ReadPreamble(old(input.Rest())).Malformed?
  {
    hide ReadLe;
    version := 0;
    var magic, reserved;
    ok, magic := input.TakeLe(4);
    if !ok || magic != STATE_MAGIC {
      return false, 0;
    }
    ok, version := input.TakeLe(2);
    if !ok || !Readable(version) {
      return false, version;
    }
    ok, reserved := input.TakeLe(2);
    ok := ok && reserved == 0;
  }

  method TakeHead(input: Cursor) returns (ok: bool, version: nat, h: Head)
    requires input.Valid()
    modifies input`offset
    ensures input.Valid()
    ensures if ok then ReadHead(old(input.Rest())) == Parsed((version, h), input.Rest())
            else ReadHead(old(input.Rest())).Malformed?
  {
    hide ReadLe, ReadBytes, ReadIdentity, ReadPreamble, StateOf;
    h := Head(UNBOUND, Zeros(16), 1, 0, Disabled);
    var context, producer, sequence, generations, raw;
    ok, version := TakePreamble(input);
    if !ok {
      return;
    }
    ok, context := TakeIdentity(input);
    if !ok {
      return;
    }
    ok, producer := input.TakeBytes(16);
    if !ok {
      return;
    }
    ok, sequence := input.TakeLe(8);
    if !ok {
      return;
    }
    ok, generations := input.TakeLe(4);
    if !ok {
      return;
    }
    ok, raw := input.TakeBytes(1);
    if !ok || StateOf(raw[0]).None? {
      return false, version, h;
    }
    h := Head(context, producer, sequence, generations, StateOf(raw[0]).value);
  }

  method TakeLosses(input: Cursor) returns (ok: bool, l: Losses)
    requires input.Valid()
    modifies input`offset
    ensures input.Valid()
    ensures if ok then ReadLosses(old(input.Rest())) == Parsed(l, input.Rest())
            else ReadLosses(old(input.Rest())).Malformed?
  {
    hide ReadLe;
    l := Losses(0, 0, 0, 0);
    var samples, batches, refused, first;
    ok, samples := input.TakeLe(8);
    if !ok {
      return;
    }
    ok, batches := input.TakeLe(8);
    if !ok {
      return;
    }
    ok, refused := input.TakeLe(8);
    if !ok {
      return;
    }
    ok, first := input.TakeLe(8);
    l := Losses(samples, batches, refused, first);
  }

  /** Prepends identities already read to the outcome of reading the others. */
  function Joined(done: seq<Identity>, others: Parsed<seq<Identity>>): Parsed<seq<Identity>> {
    if others.Malformed? then Malformed else Parsed(done + others.value, others.rest)
  }

  method TakeIdentities(input: Cursor, count: nat) returns (ok: bool, ids: seq<Identity>)
    requires input.Valid()
    modifies input`offset
    ensures input.Valid()
    ensures if ok then ReadIdentities(old(input.Rest()), count) == Parsed(ids, input.Rest())
            else ReadIdentities(old(input.Rest()), count).Malformed?
  {
    hide ReadIdentity;
    ids := [];
    ghost var all := ReadIdentities(input.Rest(), count);
    assert all.Parsed? ==> [] + all.value == all.value;
    for i := 0 to count
      invariant input.Valid()
      invariant ReadIdentities(old(input.Rest()), count) == Joined(ids, ReadIdentities(input.Rest(), count - i))
    {
      ghost var s := input.Rest();
      var id;
      ok, id := TakeIdentity(input);
      if !ok {
        return;
      }
      ghost var others := ReadIdentities(input.Rest(), count - i - 1);
      assert others.Parsed? ==> ids + ([id] + others.value) == (ids + [id]) + others.value;
      ids := ids + [id];
    }
    assert ids + [] == ids;
    ok := true;
  }

  method TakeIntent(c: BatchCodec, version: nat, input: Cursor) returns (intent: Option<Intent>)
    requires input.Valid()
    modifies input`offset
    ensures input.Valid() && intent == ReadIntent(c, version, old(input.Rest()))
  {
    hide ReadLe;
    var ok, started, size := true, 0, 0;
    if version != OLD_VERSION {
      ok, started := input.TakeLe(8);
      if !ok {
        return None;
      }
    }
    ok, size := input.TakeLe(4);
    if !ok || size > MAX_BATCH_BYTES || size != |input.data| - input.offset {
      return None;
    }
    if size == 0 {
      return Some(Intent(started, None));
    }
    if version == OLD_VERSION {
      return None;
    }
    var pending := c.decode(input.data[input.offset..]);
    return if pending.None? then None else Some(Intent(started, pending));
  }

  method DecodeState(c: BatchCodec, digest: seq<byte> -> Bytes32, file: seq<byte>) returns (stored: Option<Stored>)
    ensures stored == LoadFile(c, digest, file)
  {
    hide ReadHead, ReadLosses, ReadIdentities, ReadIntent, ReadLe;
    if |file| < 64 {
      return None;
    }
    var payload := file[..|file| - 32];
    if file[|file| - 32..] != digest(payload) {
      return None;
    }
    var input := new Cursor(payload);
    var ok, version, head := TakeHead(input);
    if !ok {
      return None;
    }
    var losses, count, revoked;
    ok, losses := TakeLosses(input);
    if !ok {
      return None;
    }
    ok, count := input.TakeLe(4);
    if !ok || count > MAX_REVOKED {
      return None;
    }
    ok, revoked := TakeIdentities(input, count);
    if !ok {
      return None;
    }
    var intent := TakeIntent(c, version, input);
    return if intent.None? then None else Some(Stored(version, Assemble(head, losses, revoked, intent.value)));
  }
}
