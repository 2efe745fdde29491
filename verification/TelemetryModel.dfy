/**
 * The telemetry coordinator as functions on one system value: memory, disk, the pattern of storage failures and the
 * durable states passed through during the current call. Every durable write appends the new disk to `journal`.
 */
module TelemetryModel {
  import opened Bytes
  import opened Lifecycle
  import opened Outcomes

  const RETENTION_MS: nat := 30 * 24 * 60 * 60 * 1000
  const MAX_OUTBOX_BATCHES: nat := 4096
  const MAX_OUTBOX_BYTES: nat := 8 * 1024 * 1024
  const MAX_BATCH_BYTES: nat := 32 * 1024
  const BATCH_LIMIT: nat := 32
  const MAX_GENERATIONS: nat := 16

  type Producer = Bytes16
  /** A sample in wire form. */
  type Sample = seq<byte>

  datatype Batch = Batch(
    context: Identity, producer: Producer, sequence: nat, firstEnqueued: nat, samples: seq<Sample>)

  /** Facts about batches that come from the batch codec: the encoded size, 0 when encoding refuses, and the hash. */
  datatype Config = Config(wireSize: Batch -> nat, hash: Batch -> nat)

  datatype Record = Record(batch: Batch, arrival: nat)
  datatype Loss = Loss(rejected: nat, conflict: nat, expired: nat, first: nat)
  datatype Box = Box(records: seq<Record>, losses: map<Bytes16, Loss>)

  /** The content of the protected state file. */
  datatype Image = Image(
    context: Identity, producer: Producer, nextSeq: nat, generations: nat, state: State,
    droppedSamples: nat, droppedBatches: nat, notAuthorized: nat, lossFirst: nat,
    revoked: seq<Identity>, pendingStarted: nat, pending: Option<Batch>)

  /** The durable objects, with the history of batches ever made durable in the outbox. */
  datatype Disk = Disk(
    state: Option<Image>, outbox: Option<Box>, scrubMarker: bool, blocked: bool, enqueued: seq<Batch>)

  /** What one attempt at a durable operation does: succeed, or fail with up to two partial effects. */
  datatype Fault = Fault(ok: bool, first: bool, second: bool)

  datatype Mem = Mem(
    pathKnown: bool, isOpen: bool, boxOpen: bool, scrubPending: bool, box: Box, life: Life, context: Identity,
    producer: Producer, nextSeq: nat, generations: nat, droppedSamples: nat, droppedBatches: nat,
    notAuthorized: nat, lossFirst: nat, pending: Option<Batch>, pendingStarted: nat, dirty: bool, cleanup: bool)

  const EMPTY_BOX := Box([], map[])
  const BOOT := Mem(
    false, false, false, false, EMPTY_BOX, FRESH, UNBOUND, Zeros(16), 1, 0, 0, 0, 0, 0, None, 0, false, false)

  datatype Sys = Sys(
    cfg: Config, env: nat -> Fault, tick: nat, clk: nat, disk: Disk, journal: seq<Disk>, m: Mem, o: Observer)
  {
    function Draw(): Fault {
      env(tick)
    }

    function Tick(): Sys {
      this.(tick := tick + 1)
    }

    function Commit(d: Disk): Sys {
      this.(disk := d, journal := journal + [d])
    }
  }

  datatype R = R(s: Sys, ok: bool)

  // ---- retention and counters ----

  predicate ExpiredAt(since: nat, now: nat) {
    since != 0 && now >= since && now - since >= RETENTION_MS
  }

  function AddSaturated(value: nat, amount: nat): nat {
    Min(value + amount, U64_MAX)
  }

  function Ceiling(samples: nat): nat {
    samples / BATCH_LIMIT + if samples % BATCH_LIMIT != 0 then 1 else 0
  }

  function Now(s: Sys, now: nat): nat {
    if now == 0 then s.clk else now
  }

  function ExpireLoss(s: Sys, now: nat): Sys {
    if ExpiredAt(s.m.lossFirst, Now(s, now))
    then s.(m := s.m.(droppedSamples := 0, droppedBatches := 0, notAuthorized := 0, lossFirst := 0, dirty := true))
    else s
  }

  function TouchLoss(s: Sys, now: nat): Sys {
    var e := ExpireLoss(s, now);
    if e.m.lossFirst == 0 then e.(m := e.m.(lossFirst := if now == 0 then s.clk else Min(now, s.clk))) else e
  }

  function CountDropped(s: Sys, samples: nat, batches: nat, now: nat): Sys {
    var t := TouchLoss(s, now);
    t.(m := t.m.(droppedSamples := AddSaturated(t.m.droppedSamples, samples),
                 droppedBatches := AddSaturated(t.m.droppedBatches, batches)))
  }

  predicate PendingExpired(m: Mem, now: nat) {
    m.pending.Some? &&
    var stamp := Min(m.pendingStarted, m.pending.value.firstEnqueued);
    stamp == 0 || (now >= stamp && now - stamp >= RETENTION_MS)
  }

  // ---- outbox ----

  predicate RecordExpired(r: Record, now: nat) {
    ExpiredAt(Min(r.arrival, r.batch.firstEnqueued), now)
  }

  function Retained(records: seq<Record>, now: nat): seq<Record> {
    if records == [] then []
    else (if RecordExpired(records[0], now) then [] else [records[0]]) + Retained(records[1..], now)
  }

  function LossOf(losses: map<Bytes16, Loss>, session: Bytes16): Loss {
    if session in losses then losses[session] else Loss(0, 0, 0, 0)
  }

  function BumpExpired(losses: map<Bytes16, Loss>, records: seq<Record>, now: nat, stamp: nat): map<Bytes16, Loss>
    decreases |records|
  {
    if records == [] then losses
    else if !RecordExpired(records[0], now) then BumpExpired(losses, records[1..], now, stamp)
    else
      var session := records[0].batch.context.sessionId;
      var loss := LossOf(losses, session);
      var bumped := loss.(expired := Min(loss.expired + 1, MAX_OUTBOX_BATCHES),
                          first := if loss.first == 0 then stamp else loss.first);
      BumpExpired(losses[session := bumped], records[1..], now, stamp)
  }

  function PruneBox(box: Box, now: nat, clk: nat): Box {
    var live := map k | k in box.losses && !ExpiredAt(box.losses[k].first, now) :: box.losses[k];
    Box(Retained(box.records, now), BumpExpired(live, box.records, now, Min(now, clk)))
  }

  predicate NothingExpired(box: Box, now: nat) {
    (forall i :: 0 <= i < |box.records| ==> !RecordExpired(box.records[i], now)) &&
    (forall k :: k in box.losses ==> !ExpiredAt(box.losses[k].first, now))
  }

  function BoxBytes(cfg: Config, records: seq<Record>): nat {
    if records == [] then 0 else cfg.wireSize(records[0].batch) + BoxBytes(cfg, records[1..])
  }

  /** Index of the first record of a producer with a sequence, |records| when there is none. */
  function FindBatch(records: seq<Record>, producer: Producer, sequence: nat): (i: nat)
    ensures i <= |records|
    ensures i < |records| ==> records[i].batch.producer == producer && records[i].batch.sequence == sequence
    ensures forall j :: 0 <= j < i ==> records[j].batch.producer != producer || records[j].batch.sequence != sequence
  {
    if records == [] then 0
    else if records[0].batch.producer == producer && records[0].batch.sequence == sequence then 0
    else 1 + FindBatch(records[1..], producer, sequence)
  }

  /** An outbox operation leaves the coordinator's own fields, the state file and the refusal marker alone. */
  ghost predicate OutboxOnly(s: Sys, t: Sys) {
    && t.cfg == s.cfg && t.env == s.env && t.clk == s.clk && t.o == s.o
    && t.m == s.m.(boxOpen := t.m.boxOpen, scrubPending := t.m.scrubPending, box := t.m.box)
    && t.disk.state == s.disk.state && t.disk.blocked == s.disk.blocked
  }

  ghost predicate BoxFrame(s: Sys, t: Sys) {
    OutboxOnly(s, t) && t.disk.enqueued == s.disk.enqueued
  }

  /** Replaces the outbox file atomically; a failure changes nothing. */
  function WriteBox(s: Sys, box: Box, enqueued: seq<Batch>): R {
    if s.Draw().ok
    then R(s.Tick().(m := s.m.(box := box)).Commit(s.disk.(outbox := Some(box), enqueued := enqueued)), true)
    else R(s.Tick(), false)
  }

  function Prune(s: Sys, now: nat): (r: R)
    ensures BoxFrame(s, r.s)
  {
    if NothingExpired(s.m.box, now) then R(s, true)
    else WriteBox(s, PruneBox(s.m.box, now, s.clk), s.disk.enqueued)
  }

  predicate CanEnqueue(cfg: Config, records: seq<Record>, b: Batch) {
    cfg.wireSize(b) > 0 &&
    (records == [] || records[0].batch.context == b.context) &&
    FindBatch(records, b.producer, b.sequence) == |records| &&
    |records| + 1 <= MAX_OUTBOX_BATCHES &&
    BoxBytes(cfg, records) + cfg.wireSize(b) <= MAX_OUTBOX_BYTES
  }

  function Enqueue(s: Sys, b: Batch): (r: R)
    ensures OutboxOnly(s, r.s)
  {
    if !s.m.boxOpen || !CanEnqueue(s.cfg, s.m.box.records, b) then R(s, false)
    else WriteBox(s, s.m.box.(records := s.m.box.records + [Record(b, s.clk)]), s.disk.enqueued + [b])
  }

  /** What a purge that could not be written still manages: a scrub marker, and the deletion of the file. */
  function Condemn(s: Sys, f: Fault): (t: Sys)
    ensures BoxFrame(s, t)
  {
    var marked := if f.first then s.Commit(s.disk.(scrubMarker := true)) else s;
    if f.second then marked.Commit(marked.disk.(outbox := None)) else marked
  }

  /** A purge that cannot be written closes the outbox, leaves a scrub marker and deletes the file, as far as it can. */
  function Purge(s: Sys): (r: R)
    ensures BoxFrame(s, r.s)
  {
    if !s.m.boxOpen then R(s, false)
    else
      var f := s.Draw();
      var empty := s.m.box.(records := []);
      if f.ok then WriteBox(s, empty, s.disk.enqueued)
      else
        R(Condemn(s.Tick().(m := s.m.(box := empty, boxOpen := false, scrubPending := true)), f), false)
  }

  function CloseBox(s: Sys): (t: Sys)
    ensures BoxFrame(s, t)
  {
    s.(m := s.m.(boxOpen := false, box := s.m.box.(records := [])))
  }

  function RemoveOutboxFile(s: Sys): (r: R)
    ensures BoxFrame(s, r.s)
  {
    if s.disk.outbox.None? then R(s, true)
    else if s.Draw().ok then R(s.Tick().Commit(s.disk.(outbox := None)), true)
    else R(s.Tick(), false)
  }

  function RemoveScrubMarker(s: Sys): (r: R)
    ensures BoxFrame(s, r.s)
  {
    if s.Draw().ok then R(s.Tick().Commit(s.disk.(scrubMarker := false)), true)
    else R(s.Tick(), false)
  }

  function LoadBox(s: Sys): (r: R)
    ensures BoxFrame(s, r.s)
  {
    if s.disk.outbox.None? then
      var w := WriteBox(s, EMPTY_BOX, s.disk.enqueued);
      R(if w.ok then w.s.(m := w.s.m.(boxOpen := true)) else w.s, w.ok)
    else if !s.Draw().ok then R(s.Tick(), false)
    else
      var loaded := s.Tick().(m := s.m.(boxOpen := true, box := s.disk.outbox.value));
      var p := Prune(loaded, s.clk);
      R(if p.ok then p.s else CloseBox(p.s), p.ok)
  }

  function RemoveAged(s: Sys, stale: bool): (r: R)
    ensures BoxFrame(s, r.s)
  {
    if stale then RemoveOutboxFile(s) else R(s, true)
  }

  /** A scrub marker outlives the payload it condemns. */
  function Scrub(s: Sys): (r: R)
    ensures BoxFrame(s, r.s)
  {
    if !s.disk.scrubMarker then R(s, true)
    else
      var removed := RemoveOutboxFile(s);
      if !removed.ok then removed else RemoveScrubMarker(removed.s)
  }

  /** Opens the outbox; `stale` says that its file was last written at least the retention time ago. */
  function OpenBox(s: Sys, stale: bool): (r: R)
    ensures BoxFrame(s, r.s)
  {
    var closed := CloseBox(s);
    if s.m.scrubPending then R(closed, false)
    else
      var aged := RemoveAged(closed, stale);
      if !aged.ok then aged
      else
        var scrubbed := Scrub(aged.s);
        if !scrubbed.ok then scrubbed else LoadBox(scrubbed.s)
  }

  datatype AckStatus = Accepted | Duplicate | Rejected | Conflict | Unavailable
  datatype Ack = Ack(session: Bytes16, producer: Producer, sequence: nat, hash: nat, status: AckStatus)
  datatype AckResult = Retired | DeletedTerminal | RetryScheduled | IgnoredMismatch | StorageFailed

  predicate AckMatches(cfg: Config, r: Record, a: Ack) {
    r.batch.context.sessionId == a.session && r.batch.producer == a.producer && r.batch.sequence == a.sequence
  }

  /** Index of the record an ACK names, |records| when there is none. */
  function FindAcked(cfg: Config, records: seq<Record>, a: Ack): (i: nat)
    ensures i <= |records|
    ensures i < |records| ==> AckMatches(cfg, records[i], a)
  {
    if records == [] then 0
    else if AckMatches(cfg, records[0], a) then 0
    else 1 + FindAcked(cfg, records[1..], a)
  }

  function TerminalLoss(losses: map<Bytes16, Loss>, a: Ack, stamp: nat): map<Bytes16, Loss> {
    var loss := LossOf(losses, a.session);
    var counted :=
      if a.status == Rejected then loss.(rejected := Min(loss.rejected + 1, MAX_OUTBOX_BATCHES))
      else loss.(conflict := Min(loss.conflict + 1, MAX_OUTBOX_BATCHES));
    losses[a.session := counted.(first := if loss.first == 0 then stamp else loss.first)]
  }

  datatype Acked = Acked(s: Sys, result: AckResult)

  /** The outbox without the record an ACK names, a terminal refusal being counted as lost. */
  function AckedBox(box: Box, i: nat, a: Ack, stamp: nat): Box
    requires i < |box.records|
  {
    Box(box.records[..i] + box.records[i + 1..],
        if a.status == Accepted || a.status == Duplicate then box.losses else TerminalLoss(box.losses, a, stamp))
  }

  function ApplyMatched(s: Sys, a: Ack, now: nat, i: nat): (r: Acked)
    requires i < |s.m.box.records|
    ensures BoxFrame(s, r.s)
  {
    var retry := a.status == Unavailable;
    var box := if retry then s.m.box else AckedBox(s.m.box, i, a, Min(now, s.clk));
    var w := WriteBox(s, box, s.disk.enqueued);
    Acked(w.s, if !w.ok then StorageFailed
               else if retry then RetryScheduled
               else if a.status == Accepted || a.status == Duplicate then Retired else DeletedTerminal)
  }

  function Acknowledge(s: Sys, a: Ack, now: nat): (r: Acked)
    ensures BoxFrame(s, r.s)
  {
    var records := s.m.box.records;
    var i := FindAcked(s.cfg, records, a);
    if !s.m.boxOpen || i == |records| || s.cfg.hash(records[i].batch) != a.hash then Acked(s, IgnoredMismatch)
    else ApplyMatched(s, a, now, i)
  }

  // ---- protected state file and refusal marker ----

  function ImageOf(m: Mem): Image {
    Image(m.context, m.producer, m.nextSeq, m.generations, m.life.state, m.droppedSamples, m.droppedBatches,
          m.notAuthorized, m.lossFirst, m.life.revoked, m.pendingStarted, m.pending)
  }

  function WriteState(s: Sys): R {
    if !s.m.isOpen then R(s, true)
    else if s.m.pending.Some? && s.cfg.wireSize(s.m.pending.value) == 0 then R(s, false)
    else if s.Draw().ok then
      R(s.Tick().(m := s.m.(dirty := false)).Commit(s.disk.(state := Some(ImageOf(s.m)))), true)
    else R(s.Tick(), false)
  }

  /** The marker is created exclusively; a created marker counts on disk even when it could not be confirmed. */
  function WriteMarker(s: Sys): R {
    if s.disk.blocked then R(s, false)
    else
      var f := s.Draw();
      var created := s.Tick().Commit(s.disk.(blocked := true));
      if f.ok then R(created, true)
      else R(if f.first then created else s.Tick(), false)
  }

  function RemoveMarker(s: Sys): R {
    if !s.disk.blocked then R(s, true)
    else if s.Draw().ok then R(s.Tick().Commit(s.disk.(blocked := false)), true)
    else R(s.Tick(), false)
  }

  predicate CountersLoad(img: Image) {
    img.lossFirst != 0 || (img.droppedSamples == 0 && img.droppedBatches == 0 && img.notAuthorized == 0)
  }

  predicate ContextLoads(img: Image) {
    if img.context.Empty() then
      img.context == UNBOUND && !HasNonzero(img.producer) && img.nextSeq == 1 && img.generations == 0 &&
      img.state == Disabled
    else
      img.context.Valid() && HasNonzero(img.producer) && img.nextSeq != 0 && img.generations != 0 &&
      img.generations <= MAX_GENERATIONS
  }

  predicate PendingLoads(img: Image, clk: nat) {
    if img.pending.None? then img.pendingStarted == 0
    else
      img.pendingStarted != 0 && img.pendingStarted <= clk &&
      img.pending.value.context == img.context && img.pending.value.producer == img.producer &&
      img.pending.value.sequence == img.nextSeq && img.state != Revoked && img.nextSeq != U64_MAX
  }

  function LoadedMem(m: Mem, img: Image, life: Life, clk: nat): Mem {
    m.(life := life, context := img.context, producer := img.producer, nextSeq := img.nextSeq,
       generations := img.generations, droppedSamples := img.droppedSamples, droppedBatches := img.droppedBatches,
       notAuthorized := img.notAuthorized, lossFirst := Min(img.lossFirst, clk), pending := img.pending,
       pendingStarted := img.pendingStarted, dirty := Min(img.lossFirst, clk) != img.lossFirst)
  }

  /** The checks of the loader, on the decoded fields. */
  function LoadImage(cfg: Config, img: Image, clk: nat, m: Mem): Option<Mem> {
    if !CountersLoad(img) || !ContextLoads(img) || |img.revoked| > MAX_REVOKED then None
    else
      var replayed := Replay(FRESH, img.revoked);
      if replayed.None? || !replayed.value.CanSetContext(img.context) then None
      else
        var bound := replayed.value.SetContext(img.context);
        if (bound.IsRevoked(img.context) && img.state != Revoked) || !PendingLoads(img, clk) then None
        else Some(LoadedMem(m, img, bound.Restart(Known(img.state)), clk))
  }

  // ---- the mutually recursive durable routines ----

  /** Publishes the current state, reporting the result to both outcomes. */
  function Publish(s: Sys): (r: R)
    ensures r.s.m.pending == s.m.pending
  {
    var w := WriteState(s);
    if w.ok then R(w.s.(o := w.s.o.SetPublication(CurrentStateConfirmed)), true)
    else R(w.s.(o := w.s.o.Fail(StateFailed).PublicationFailed()), false)
  }

  /** A latched outbox is replaced by a new instance before it is purged. */
  function Reopen(s: Sys): (r: R)
    ensures BoxFrame(s, r.s)
  {
    if s.m.boxOpen then R(s, true)
    else OpenBox(s.Tick().(m := s.m.(scrubPending := false)), s.Draw().first)
  }

  /** The last step of a cleanup: nothing is left to refuse once the payload is gone. */
  function Unblock(s: Sys): (r: R)
    ensures r.s.m.pending == s.m.pending
  {
    var u := RemoveMarker(s);
    if !u.ok then R(u.s.(o := u.s.o.Fail(CleanupFailed)), false)
    else
      R(u.s.(m := u.s.m.(cleanup := false),
             o := u.s.o.SetStopCleanup(CleanupComplete).SetFlushCleanup(CleanupComplete)), true)
  }

  /** Finishes a revocation: empties the outbox, then removes the refusal marker. */
  function CleanUp(s: Sys): (r: R)
    ensures r.s.m.pending == s.m.pending
  {
    var reopened := Reopen(s);
    if !reopened.ok then R(reopened.s.(o := reopened.s.o.Fail(CleanupFailed)), false)
    else
      var purged := Purge(reopened.s);
      if !purged.ok then R(purged.s.(o := purged.s.o.Fail(CleanupFailed)), false)
      else Unblock(purged.s)
  }

  function CompletePending(s: Sys): R {
    var s1 := s.(m := s.m.(nextSeq := s.m.nextSeq + 1, pending := None, pendingStarted := 0, dirty := true),
                 o := s.o.SetPending(PendingCompleted));
    var w := WriteState(s1);
    if w.ok then R(w.s.(o := w.s.o.SetPublication(CurrentStateConfirmed)), true)
    else R(w.s.(o := w.s.o.FailFlush(StateFailed).PublicationFailed()), false)
  }

  /** The fallback when a revocation cannot be published: refusal marker first, then payload cleanup. */
  function RevocationFallback(s: Sys): Sys {
    var s1 := s.(o := s.o.Fail(StateFailed).PublicationFailed());
    var k := WriteMarker(s1);
    var s2 :=
      if k.ok then k.s.(o := k.s.o.SetWitness(RefusalMarkerConfirmed).SetPublication(MarkerConfirmed))
      else k.s.(o := k.s.o.SetWitness(WitnessUnconfirmed).Fail(RevocationUnconfirmed));
    var p := Purge(s2);
    if p.ok then p.s else p.s.(o := p.s.o.Fail(CleanupFailed))
  }

  function PersistRevocation(s: Sys, now: nat): R
    decreases if s.m.pending.Some? then 1 else 0, 3
  {
    var w := WriteState(s);
    if !w.ok then R(RevocationFallback(w.s), false)
    else Flush(w.s.(o := w.s.o.SetWitness(ProtectedStateConfirmed).SetPublication(CurrentStateConfirmed)), now)
  }

  /** Memory after a context is revoked with its pending batch counted as lost. */
  function Revoking(s: Sys, now: nat): Sys {
    var counted := if s.m.pending.None? then s else CountDropped(s, |s.m.pending.value.samples|, 1, now);
    counted.(m := counted.m.(pending := None, pendingStarted := 0, life := counted.m.life.Stop(), cleanup := true,
                             dirty := true),
             o := counted.o.SetFlushCleanup(CleanupPending))
  }

  /** Always fails: the caller asked for something a revoked context can no longer do. */
  function RevokePending(s: Sys, now: nat): R
    decreases 1, 0
  {
    var revoking := Revoking(s, now);
    var p := PersistRevocation(revoking.(o := revoking.o.(stop := None)), now);
    R(p.s.(o := p.s.o.(stop := s.o.stop, stopLog := s.o.stopLog)), false)
  }

  function FinishPending(s: Sys, now: nat): R
    decreases if s.m.pending.Some? then 1 else 0, 1
  {
    if s.m.pending.None? then R(s, true)
    else
      var b := s.m.pending.value;
      var records := s.m.box.records;
      var i := FindBatch(records, b.producer, b.sequence);
      if i < |records| then
        if records[i].batch != b then R(s.(o := s.o.FailFlush(PendingConflict)), false)
        else CompletePending(s)
      else if LossOf(s.m.box.losses, b.context.sessionId).expired != 0 then
        RevokePending(s.(o := s.o.SetPending(RevokedAgeUncertain)), Now(s, now))
      else
        var e := Enqueue(s, b);
        if !e.ok then R(e.s.(o := e.s.o.FailFlush(EnqueueUnfinished)), false) else CompletePending(e.s)
  }

  /** Everything before the pending batch: publish what is dirty, then finish a revocation. */
  function Settle(s: Sys): (r: R)
    ensures r.s.m.pending == s.m.pending
  {
    var published := if s.m.dirty then Publish(s) else R(s, true);
    if !published.ok then published
    else if published.s.m.cleanup then CleanUp(published.s)
    else published
  }

  function Flush(s: Sys, now: nat): R
    decreases if s.m.pending.Some? then 1 else 0, 2
  {
    var t := Now(s, now);
    var s1 := ExpireLoss(s, t);
    if PendingExpired(s1.m, t) then RevokePending(s1.(o := s1.o.SetPending(RevokedExpired)), t)
    else
      var settled := Settle(s1);
      if !settled.ok then settled else FinishPending(settled.s, t)
  }

  // ---- public operations; each starts with an empty journal ----

  function EnterFlush(m: Mem): FlushOutcome {
    FLUSH_OUTCOME.(before := ObservedOpen(m.life.state),
                   pending := if m.pending.Some? then PendingRetained else PendingNotPresent,
                   cleanup := if m.cleanup then CleanupPending else CleanupNotNeeded)
  }

  function LeaveFlush(s: Sys): Sys {
    if s.o.flush.None? then s
    else
      var f := s.o.flush.value;
      var after := if s.m.isOpen then ObservedOpen(s.m.life.state) else ObservedClosed;
      s.(o := s.o.(flush := Some(f.(
        after := after,
        cleanup := if s.m.cleanup then CleanupPending else f.cleanup,
        publication := if s.m.dirty && f.publication == CurrentStateConfirmed then EarlierSnapshotConfirmed
                       else f.publication))))
  }

  function Maintenance(s: Sys, now: nat): R {
    var t := Now(s, now);
    var f := Flush(s, t);
    if !f.ok then f else Prune(f.s, t)
  }

  function CloseLocked(s: Sys): R {
    if !s.m.isOpen then R(s, true)
    else
      var f := Flush(s, 0);
      if !f.ok then f
      else
        var c := CloseBox(f.s);
        R(c.(m := c.m.(isOpen := false)), true)
  }

  function Shut(s: Sys): Sys {
    var c := CloseBox(s);
    c.(m := c.m.(isOpen := false))
  }

  datatype OpenResult =
    | Opened | ReopenRefused | Blocked | StateCorrupt | StateMissing | PendingStorageMissing | InitialStateFailed
    | OutboxFailed | Inconsistent | PendingFileExpired | FlushFailed

  datatype OpenOut = OpenOut(s: Sys, result: OpenResult)

  /** The durable batches a freshly loaded coordinator accepts. */
  predicate Consistent(m: Mem) {
    var rs := m.box.records;
    (forall i :: 0 <= i < |rs| ==>
       rs[i].batch.context == m.context && rs[i].batch.producer == m.producer &&
       (rs[i].batch.sequence < m.nextSeq ||
        (m.pending.Some? && rs[i].batch.sequence == m.pending.value.sequence))) &&
    (forall i, j :: 0 <= i < j < |rs| ==> rs[i].batch.sequence != rs[j].batch.sequence)
  }

  /** What follows once state and outbox are loaded; `aged` says that the pending batch's file is past retention. */
  function Recover(s: Sys, aged: bool): OpenOut {
    if !Consistent(s.m) then OpenOut(Shut(s), Inconsistent)
    else if aged then OpenOut(Shut(RevokePending(s, s.clk).s), PendingFileExpired)
    else
      var f := Flush(s, 0);
      if !f.ok then OpenOut(Shut(f.s), FlushFailed) else OpenOut(f.s, Opened)
  }

  function OpenLoaded(s: Sys, stale: bool): OpenOut {
    var b := OpenBox(s, stale);
    if !b.ok then OpenOut(b.s.(m := b.s.m.(isOpen := false)), OutboxFailed)
    else
      Recover(b.s.(m := b.s.m.(isOpen := true, cleanup := b.s.m.life.state == Revoked)), s.m.pending.Some? && stale)
  }

  function Fresh(s: Sys): Sys {
    s.(m := BOOT.(pathKnown := true, isOpen := true, scrubPending := s.m.scrubPending, box := s.m.box,
                  dirty := s.m.dirty))
  }

  /** A first start publishes its state before it creates an outbox. */
  function OpenFresh(s: Sys, stale: bool): OpenOut {
    var w := WriteState(Fresh(s));
    if !w.ok then OpenOut(Shut(w.s), InitialStateFailed) else OpenLoaded(w.s, stale)
  }

  function OpenSaved(s: Sys, img: Image, stale: bool): OpenOut {
    var loaded := LoadImage(s.cfg, img, s.clk, s.m);
    if loaded.None? then OpenOut(s, StateCorrupt)
    else if loaded.value.pending.Some? && s.disk.outbox.None? then
      OpenOut(s.(m := loaded.value), PendingStorageMissing)
    else OpenLoaded(s.(m := loaded.value), stale)
  }

  function Open(s: Sys, stale: bool): OpenOut {
    var c := CloseLocked(s);
    if !c.ok then OpenOut(c.s, ReopenRefused)
    else
      var s1 := c.s.(m := c.s.m.(pathKnown := true));
      if s1.disk.blocked then OpenOut(s1, Blocked)
      else if s1.disk.state.Some? then OpenSaved(s1, s1.disk.state.value, stale)
      else if s1.disk.outbox.Some? then OpenOut(s1, StateMissing)
      else if s1.m.pending.Some? then OpenOut(s1, PendingStorageMissing)
      else OpenFresh(s1, stale)
  }

  /** `candidate` is the random producer candidate, None when randomness is unavailable. */
  function ServerEnable(s: Sys, id: Identity, candidate: Option<Producer>): R {
    if !s.m.isOpen || !id.Valid() then R(s, false)
    else
      var f := Flush(s, 0);
      if !f.ok || f.s.m.life.IsRevoked(id) then R(f.s, false)
      else if !f.s.m.context.Empty() && f.s.m.life.state != Revoked then
        if f.s.m.context != id then R(f.s, false) else Authorize(f.s, id)
      else if candidate.None? || !HasNonzero(candidate.value) || !f.s.m.life.CanSetContext(id) then R(f.s, false)
      else
        Authorize(NewContext(f.s, id, candidate.value), id)
  }

  function NewContext(s: Sys, id: Identity, producer: Producer): Sys {
    s.(m := s.m.(producer := producer, nextSeq := 1, generations := 1, life := s.m.life.SetContext(id),
                 context := id, droppedSamples := 0, droppedBatches := 0, notAuthorized := 0, lossFirst := 0))
  }

  function Authorize(s: Sys, id: Identity): R {
    var accepted := s.m.life.AcceptsEnable(id);
    var w := WriteState(s.(m := s.m.(life := s.m.life.Enable(id))));
    if w.ok then R(w.s, accepted)
    else R(w.s.(m := w.s.m.(life := w.s.m.life.Disconnect(), dirty := true)), false)
  }

  /** A disconnect and a service shutdown do the same. */
  function ServerDisconnect(s: Sys): Sys {
    if !s.m.isOpen then s.(o := UNOBSERVED.(flush := Some(FLUSH_OUTCOME)))
    else
      var s1 := s.(m := s.m.(life := s.m.life.Disconnect(), dirty := true),
                   o := UNOBSERVED.(flush := Some(EnterFlush(s.m))));
      LeaveFlush(Flush(s1, 0).s)
  }

  function Close(s: Sys): Sys {
    if !s.m.isOpen then s.(o := UNOBSERVED.(flush := Some(FLUSH_OUTCOME)))
    else LeaveFlush(CloseLocked(s.(o := UNOBSERVED.(flush := Some(EnterFlush(s.m))))).s)
  }

  function ExplicitStop(s: Sys): Sys {
    if !s.m.isOpen then s.(o := UNOBSERVED.(stop := Some(STOP_OUTCOME)))
    else if !s.m.context.Bound() then
      s.(o := UNOBSERVED.(stop := Some(STOP_OUTCOME.(applicability := NotBound))))
    else
      var entry := STOP_OUTCOME.(
        applicability := Applicable, cleanup := CleanupPending,
        memory := if s.m.life.state == Revoked then AlreadyRevoked else RevokedNow);
      PersistRevocation(
        s.(m := s.m.(life := s.m.life.Stop(), pending := None, pendingStarted := 0, cleanup := true, dirty := true),
           o := UNOBSERVED.(stop := Some(entry))),
        s.clk).s
  }

  function DropRemaining(s: Sys, samples: nat, now: nat): Sys {
    var c := CountDropped(s, samples, Ceiling(samples), now);
    Flush(c.(m := c.m.(dirty := true)), now).s
  }

  function NextBatch(s: Sys, samples: seq<Sample>, now: nat): Batch {
    Batch(s.m.context, s.m.producer, s.m.nextSeq, Min(now, s.clk), samples)
  }

  predicate CanStage(s: Sys, b: Batch) {
    s.m.nextSeq != U64_MAX && s.cfg.wireSize(b) > 0 && |s.m.box.records| < MAX_OUTBOX_BATCHES &&
    s.cfg.wireSize(b) + BoxBytes(s.cfg, s.m.box.records) <= MAX_OUTBOX_BYTES
  }

  function Stage(s: Sys, b: Batch, now: nat): Sys {
    s.(m := s.m.(pending := Some(b), pendingStarted := Min(now, s.clk), dirty := true))
  }

  function DropTail(s: Sys, samples: nat, now: nat): Sys {
    if samples == 0 then s
    else
      var c := CountDropped(s, samples, Ceiling(samples), now);
      WriteState(c.(m := c.m.(dirty := true))).s
  }

  function IngestLoop(s: Sys, samples: seq<Sample>, now: nat): R
    decreases |samples|
  {
    if samples == [] then R(s, true)
    else
      var n := Min(|samples|, BATCH_LIMIT);
      var b := NextBatch(s, samples[..n], now);
      if !CanStage(s, b) then R(DropRemaining(s, |samples|, now), false)
      else
        var f := Flush(Stage(s, b, now), now);
        if !f.ok then R(DropTail(f.s, |samples| - n, now), false) else IngestLoop(f.s, samples[n..], now)
  }

  function Unauthorized(s: Sys, samples: nat, now: nat): Sys {
    var t := TouchLoss(s, now);
    Flush(t.(m := t.m.(notAuthorized := AddSaturated(t.m.notAuthorized, samples), dirty := true)), now).s
  }

  function Ingest(s: Sys, samples: seq<Sample>, now: nat): R {
    if !s.m.isOpen then R(s, false)
    else if samples == [] then R(s, true)
    else if s.m.life.state != Enabled then R(Unauthorized(s, |samples|, now), false)
    else
      var f := Flush(s, Now(s, now));
      if !f.ok then R(DropRemaining(f.s, |samples|, Now(s, now)), false) else IngestLoop(f.s, samples, Now(s, now))
  }

  function ServerAck(s: Sys, a: Ack, now: nat): Acked {
    if !s.m.isOpen then Acked(s, IgnoredMismatch)
    else
      var f := Flush(s, now);
      if !f.ok then Acked(f.s, StorageFailed) else Acknowledge(f.s, a, Now(s, now))
  }

  datatype Sent = Sent(s: Sys, batch: Option<Batch>)

  /** `pick` stands for the outbox's own choice among its unexpired records. */
  function NextToSend(s: Sys, now: nat, pick: nat): Sent {
    if !s.m.isOpen then Sent(s, None)
    else
      var p := Maintenance(s, now);
      if !p.ok || p.s.m.life.state != Enabled then Sent(p.s, None)
      else
        var records := p.s.m.box.records;
        Sent(p.s, if pick < |records| && !RecordExpired(records[pick], Now(s, now)) then Some(records[pick].batch)
                  else None)
  }

  function ScrubBehindMarker(s: Sys): R {
    var o := RemoveOutboxFile(s);
    if !o.ok || o.s.disk.state.None? then R(o.s, false)
    else if o.s.Draw().ok then R(o.s.Tick().Commit(o.s.disk.(state := None)), false)
    else R(o.s.Tick(), false)
  }

  /** A closed coordinator facing a refusal marker scrubs the payload and keeps the marker. */
  function Maintain(s: Sys, now: nat): R {
    if s.m.isOpen then Maintenance(s, now)
    else if !s.m.pathKnown || !s.disk.blocked then R(s, false)
    else ScrubBehindMarker(s)
  }
}
