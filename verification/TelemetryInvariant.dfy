/** What every durable write and every coordinator call preserves, crash or no crash. */
module TelemetryInvariant {
  import opened Bytes
  import opened Lifecycle
  import opened Outcomes
  import opened TelemetryModel

  function Records(d: Disk): seq<Record> {
    if d.outbox.Some? then d.outbox.value.records else []
  }

  /** A saved state that the loader accepts at any time from `clk` on. */
  ghost predicate ImageOk(cfg: Config, img: Image, clk: nat) {
    && (img.lossFirst == 0 ==> img.droppedSamples == img.droppedBatches == img.notAuthorized == 0)
    && img.lossFirst <= clk
    && img.droppedSamples <= U64_MAX && img.droppedBatches <= U64_MAX && img.notAuthorized <= U64_MAX
    && (if img.context.Empty()
        then img.context == UNBOUND && !HasNonzero(img.producer) && img.nextSeq == 1 && img.generations == 0 &&
             img.state == Disabled
        else img.context.Valid() && HasNonzero(img.producer) && 1 <= img.nextSeq <= U64_MAX &&
             1 <= img.generations <= MAX_GENERATIONS)
    && ArchiveOk(img.revoked, img.context)
    && (img.pending.None? ==> img.pendingStarted == 0)
    && (img.pending.Some? ==> PendingOk(cfg, img, clk))
  }

  ghost predicate ArchiveOk(revoked: seq<Identity>, context: Identity) {
    && |revoked| <= MAX_REVOKED
    && (forall i, j :: 0 <= i < j < |revoked| ==> revoked[i] != revoked[j])
    && (forall id :: id in revoked ==> id.Valid())
    && context !in revoked
  }

  ghost predicate PendingOk(cfg: Config, img: Image, clk: nat)
    requires img.pending.Some?
  {
    var b := img.pending.value;
    && cfg.wireSize(b) > 0
    && b.context == img.context && b.producer == img.producer && b.sequence == img.nextSeq < U64_MAX
    && (img.state == Enabled || img.state == Suspended) && !img.context.Empty()
    && 0 < img.pendingStarted <= clk && b.firstEnqueued == img.pendingStarted
  }

  ghost predicate Covers(enqueued: seq<Batch>, producer: Producer, sequence: nat) {
    exists b :: b in enqueued && b.producer == producer && b.sequence == sequence
  }

  ghost predicate DistinctSequences(records: seq<Record>) {
    forall i, j :: 0 <= i < j < |records| ==> records[i].batch.sequence != records[j].batch.sequence
  }

  /**
   * A counter agrees with the outbox and with the history of durable batches: what is in the outbox has a sequence
   * already used up or is exactly the pending intent, and every used sequence was made durable at least once.
   */
  ghost predicate Tracked(live: bool, context: Identity, producer: Producer, nextSeq: nat, pending: Option<Batch>,
                          records: seq<Record>, enqueued: seq<Batch>) {
    && (forall r :: r in records ==>
          r.batch.context == context && r.batch.producer == producer && r.batch in enqueued &&
          (r.batch.sequence < nextSeq || pending == Some(r.batch)) && r.batch.firstEnqueued <= r.arrival)
    && DistinctSequences(records)
    && (live ==> forall b :: b in enqueued && b.producer == producer ==> b.sequence < nextSeq || pending == Some(b))
    && (forall k :: 1 <= k < nextSeq ==> Covers(enqueued, producer, k))
    && (context.Empty() ==> records == [])
  }

  ghost predicate TrackedImage(img: Image, d: Disk) {
    Tracked(img.state != Revoked, img.context, img.producer, img.nextSeq, img.pending, Records(d), d.enqueued)
  }

  /** Sequences of every producer are 1, 2, 3, ... without gaps, and each one names a single batch. */
  ghost predicate History(enqueued: seq<Batch>) {
    && (forall b :: b in enqueued ==> b.sequence >= 1)
    && (forall b, c :: b in enqueued && c in enqueued && b.producer == c.producer && b.sequence == c.sequence ==>
                         b == c)
    && (forall b, k :: b in enqueued && 1 <= k < b.sequence ==> Covers(enqueued, b.producer, k))
  }

  ghost predicate DiskOk(cfg: Config, d: Disk, clk: nat) {
    && History(d.enqueued)
    && (d.state.Some? ==> ImageOk(cfg, d.state.value, clk) && TrackedImage(d.state.value, d))
    && (d.state.None? ==> d.blocked || (d.outbox.None? && d.enqueued == []))
  }

  /**
   * What a call must not undo: identities the disk refuses, batches that were durable before it, batches that must
   * never be made durable again, its surroundings.
   */
  datatype Promise = Promise(sealed: set<Identity>, durable: seq<Batch>, spent: set<Batch>, cfg: Config, clk: nat)

  /** The disk refuses an identity: it is revoked in the saved state, or the refusal marker blocks every open. */
  predicate Sealed(d: Disk, id: Identity) {
    d.blocked ||
    (d.state.Some? &&
     (id in d.state.value.revoked || (d.state.value.state == Revoked && d.state.value.context == id)))
  }

  ghost predicate Good(cfg: Config, d: Disk, clk: nat, p: Promise) {
    DiskOk(cfg, d, clk) && p.durable <= d.enqueued && (forall id :: id in p.sealed ==> Sealed(d, id)) && SpentOn(d, p)
  }

  /** No spent batch is an intent on disk, or was made durable since the promise was given. */
  ghost predicate SpentOn(d: Disk, p: Promise)
    requires p.durable <= d.enqueued
  {
    && (forall b :: b in p.spent ==> b in p.durable)
    && (forall b :: b in p.spent && d.state.Some? ==> d.state.value.pending != Some(b))
    && (forall i :: |p.durable| <= i < |d.enqueued| ==> d.enqueued[i] !in p.spent)
  }

  /** The saved state is the one in memory, except that it may still call an authorized context enabled. */
  predicate Saved(img: Image, m: Mem) {
    img == ImageOf(m) || (m.life.state == Suspended && img == ImageOf(m).(state := Enabled))
  }

  /** The disk, and every durable state of the current call, is recoverable and keeps the promise. */
  ghost predicate Safe(s: Sys, p: Promise) {
    && s.clk == p.clk > 0 && s.cfg == p.cfg
    && Good(s.cfg, s.disk, s.clk, p)
    && forall d :: d in s.journal ==> Good(s.cfg, d, s.clk, p)
  }

  ghost predicate MemOk(s: Sys, p: Promise) {
    var m := s.m;
    var d := s.disk;
    && d.state.Some?
    && m.life.context == m.context
    && ImageOk(s.cfg, ImageOf(m), s.clk)
    && TrackedImage(ImageOf(m), d)
    && (!m.dirty ==> Saved(d.state.value, m))
    && (m.boxOpen ==> d.outbox == Some(m.box) && !d.scrubMarker)
    && (!m.boxOpen ==> m.box.records == [] && m.cleanup)
    && (m.cleanup ==> m.life.state == Revoked)
    && (d.blocked ==> m.cleanup)
    && (m.life.state == Revoked && !m.cleanup ==> Records(d) == [])
    && (forall id :: id in p.sealed ==> m.life.IsRevoked(id))
    && (m.pending.Some? ==> m.pending.value !in p.spent)
  }

  /** No durable batch has used the next sequence yet. */
  ghost predicate Strict(s: Sys) {
    forall r :: r in Records(s.disk) ==> r.batch.sequence < s.m.nextSeq
  }

  ghost predicate OpenOk(s: Sys, p: Promise) {
    s.m.isOpen && Safe(s, p) && MemOk(s, p)
  }

  /** Nothing left to publish, to clean up or to enqueue. */
  predicate Settled(m: Mem) {
    !m.dirty && !m.cleanup && m.pending.None?
  }

  ghost predicate Inv(s: Sys, p: Promise) {
    Safe(s, p) && (s.m.isOpen ==> MemOk(s, p) && Strict(s))
  }

  // ---- the outbox only shrinks ----

  ghost predicate Shrinks(less: seq<Record>, more: seq<Record>) {
    && (forall r :: r in less ==> r in more)
    && (DistinctSequences(more) ==> DistinctSequences(less))
    && (more == [] ==> less == [])
  }

  lemma TrackedShrinks(live: bool, context: Identity, producer: Producer, nextSeq: nat, pending: Option<Batch>,
                       less: seq<Record>, more: seq<Record>, enqueued: seq<Batch>)
    requires Tracked(live, context, producer, nextSeq, pending, more, enqueued) && Shrinks(less, more)
    ensures Tracked(live, context, producer, nextSeq, pending, less, enqueued)
  {
  }

  lemma {:induction false} RetainedShrinks(records: seq<Record>, now: nat)
    ensures Shrinks(Retained(records, now), records)
    ensures forall r :: r in Retained(records, now) ==> !RecordExpired(r, now)
    ensures forall r :: r in records && !RecordExpired(r, now) ==> r in Retained(records, now)
  {
    if records != [] {
      RetainedShrinks(records[1..], now);
      var tail := Retained(records[1..], now);
      if DistinctSequences(records) {
        assert DistinctSequences(records[1..]);
        forall r | r in tail
          ensures r.batch.sequence != records[0].batch.sequence
        {
          var k :| 0 <= k < |records[1..]| && records[1..][k] == r;
          assert records[k + 1] == r;
        }
      }
    }
  }

  lemma RemovalShrinks(records: seq<Record>, i: nat)
    requires i < |records|
    ensures Shrinks(records[..i] + records[i + 1..], records)
  {
    var less := records[..i] + records[i + 1..];
    assert forall k :: 0 <= k < |less| ==> less[k] == records[if k < i then k else k + 1];
  }

  /** A durable outbox step that touches neither the state file, nor the marker, nor the history. */
  ghost predicate BoxStep(d: Disk, e: Disk) {
    e.state == d.state && e.blocked == d.blocked && e.enqueued == d.enqueued && Shrinks(Records(e), Records(d))
  }

  lemma BoxStepGood(cfg: Config, d: Disk, e: Disk, clk: nat, p: Promise)
    requires Good(cfg, d, clk, p) && d.state.Some? && BoxStep(d, e)
    ensures Good(cfg, e, clk, p)
  {
    var img := d.state.value;
    TrackedShrinks(img.state != Revoked, img.context, img.producer, img.nextSeq, img.pending, Records(e), Records(d),
                   d.enqueued);
  }

  /** A run of outbox steps from `s` to `t`, every durable state of which is good. */
  ghost predicate BoxSteps(s: Sys, t: Sys, p: Promise) {
    BoxFrame(s, t) && BoxStep(s.disk, t.disk) && Safe(t, p)
  }

  lemma BoxStepsCompose(s: Sys, t: Sys, u: Sys, p: Promise)
    requires BoxSteps(s, t, p) && BoxSteps(t, u, p)
    ensures BoxSteps(s, u, p)
  {
  }

  lemma BoxCommit(s: Sys, e: Disk, p: Promise)
    requires Safe(s, p) && s.disk.state.Some? && BoxStep(s.disk, e)
    ensures Safe(s.Commit(e), p)
  {
    BoxStepGood(s.cfg, s.disk, e, s.clk, p);
  }

  lemma WriteBoxSteps(s: Sys, box: Box, p: Promise)
    requires Safe(s, p) && s.disk.state.Some? && Shrinks(box.records, Records(s.disk))
    ensures var r := WriteBox(s, box, s.disk.enqueued);
            BoxSteps(s, r.s, p) &&
            (r.ok ==> r.s.disk.outbox == Some(box) && r.s.m.box == box && r.s.disk.scrubMarker == s.disk.scrubMarker) &&
            (!r.ok ==> r.s == s.Tick())
  {
    if s.Draw().ok {
      BoxCommit(s.Tick().(m := s.m.(box := box)), s.disk.(outbox := Some(box)), p);
    }
  }

  lemma PruneSteps(s: Sys, now: nat, p: Promise)
    requires Safe(s, p) && s.disk.state.Some? && s.disk.outbox == Some(s.m.box)
    ensures var r := Prune(s, now);
            BoxSteps(s, r.s, p) && r.s.disk.outbox == Some(r.s.m.box) &&
            r.s.disk.scrubMarker == s.disk.scrubMarker && r.s.m.boxOpen == s.m.boxOpen &&
            (r.ok ==> forall x :: x in r.s.m.box.records ==> !RecordExpired(x, now))
  {
    hide Good, Shrinks, RecordExpired;
    NoShrink(Records(s.disk));
    if !NothingExpired(s.m.box, now) {
      RetainedShrinks(s.m.box.records, now);
      WriteBoxSteps(s, PruneBox(s.m.box, now, s.clk), p);
    }
  }

  lemma FailedPurgeSteps(s: Sys, p: Promise)
    requires Safe(s, p) && s.disk.state.Some? && s.m.boxOpen && !s.Draw().ok
    ensures BoxSteps(s, Purge(s).s, p)
  {
    hide Good, Shrinks;
    var f := s.Draw();
    var closed := s.Tick().(m := s.m.(box := s.m.box.(records := []), boxOpen := false, scrubPending := true));
    var marker := s.disk.(scrubMarker := true);
    assert BoxStep(s.disk, marker) by { NoShrink(Records(s.disk)); }
    if f.first {
      BoxCommit(closed, marker, p);
    }
    var marked := if f.first then closed.Commit(marker) else closed;
    var removed := marked.disk.(outbox := None);
    assert Shrinks([], Records(marked.disk)) by { NothingShrinks(Records(marked.disk)); }
    if f.second {
      BoxCommit(marked, removed, p);
    }
  }

  lemma NoShrink(records: seq<Record>)
    ensures Shrinks(records, records)
  {
  }

  lemma NothingShrinks(records: seq<Record>)
    ensures Shrinks([], records)
  {
  }

  /** A purge leaves an empty open outbox, or a closed one. */
  ghost predicate PurgeEnds(s: Sys, r: R) {
    && (r.ok ==> r.s.m.boxOpen && r.s.disk.outbox == Some(r.s.m.box) && Records(r.s.disk) == [] &&
                 r.s.disk.scrubMarker == s.disk.scrubMarker)
    && (!r.ok ==> !r.s.m.boxOpen && (s.m.boxOpen ==> r.s.m.box.records == []) && (!s.m.boxOpen ==> r.s == s))
  }

  lemma PurgeLeaves(s: Sys)
    ensures PurgeEnds(s, Purge(s))
  {
    hide BoxFrame, OutboxOnly;
  }

  lemma PurgeKeeps(s: Sys, p: Promise)
    requires Safe(s, p) && s.disk.state.Some? && (s.m.boxOpen ==> s.disk.outbox == Some(s.m.box))
    ensures BoxSteps(s, Purge(s).s, p)
  {
    hide Good, Shrinks, Condemn, WriteBox;
    NothingShrinks(Records(s.disk));
    NoShrink(Records(s.disk));
    if s.m.boxOpen {
      if s.Draw().ok {
        WriteBoxSteps(s, s.m.box.(records := []), p);
      } else {
        FailedPurgeSteps(s, p);
      }
    }
  }

  lemma PurgeSteps(s: Sys, p: Promise)
    requires Safe(s, p) && s.disk.state.Some? && (s.m.boxOpen ==> s.disk.outbox == Some(s.m.box))
    ensures BoxSteps(s, Purge(s).s, p) && PurgeEnds(s, Purge(s))
  {
    hide Purge, BoxSteps, PurgeEnds;
    PurgeKeeps(s, p);
    PurgeLeaves(s);
  }

  lemma RemoveOutboxFileSteps(s: Sys, p: Promise)
    requires Safe(s, p) && s.disk.state.Some?
    ensures var r := RemoveOutboxFile(s);
            BoxSteps(s, r.s, p) && r.s.m == s.m && r.s.disk.scrubMarker == s.disk.scrubMarker &&
            (r.ok ==> r.s.disk.outbox.None?)
  {
    if s.disk.outbox.Some? && s.Draw().ok {
      BoxCommit(s.Tick(), s.disk.(outbox := None), p);
    }
  }

  lemma RemoveScrubMarkerSteps(s: Sys, p: Promise)
    requires Safe(s, p) && s.disk.state.Some?
    ensures var r := RemoveScrubMarker(s);
            BoxSteps(s, r.s, p) && r.s.m == s.m && r.s.disk.outbox == s.disk.outbox &&
            (r.ok ==> !r.s.disk.scrubMarker)
  {
    if s.Draw().ok {
      BoxCommit(s.Tick(), s.disk.(scrubMarker := false), p);
    }
  }

  lemma LoadBoxSteps(s: Sys, p: Promise)
    requires Safe(s, p) && s.disk.state.Some? && !s.disk.scrubMarker && !s.m.boxOpen && s.m.box.records == []
    ensures var r := LoadBox(s);
            BoxSteps(s, r.s, p) &&
            (r.ok ==> r.s.m.boxOpen && r.s.disk.outbox == Some(r.s.m.box) && !r.s.disk.scrubMarker &&
                      forall x :: x in r.s.m.box.records ==> !RecordExpired(x, s.clk)) &&
            (!r.ok ==> !r.s.m.boxOpen && r.s.m.box.records == [])
  {
    if s.disk.outbox.None? {
      WriteBoxSteps(s, EMPTY_BOX, p);
    } else if s.Draw().ok {
      var loaded := s.Tick().(m := s.m.(boxOpen := true, box := s.disk.outbox.value));
      PruneSteps(loaded, s.clk, p);
    }
  }

  lemma RemoveAgedSteps(s: Sys, stale: bool, p: Promise)
    requires Safe(s, p) && s.disk.state.Some?
    ensures var r := RemoveAged(s, stale);
            BoxSteps(s, r.s, p) && r.s.m == s.m && (r.ok && stale ==> Records(r.s.disk) == [])
  {
    NoShrink(Records(s.disk));
    if stale {
      RemoveOutboxFileSteps(s, p);
    }
  }

  lemma ScrubSteps(s: Sys, p: Promise)
    requires Safe(s, p) && s.disk.state.Some?
    ensures var r := Scrub(s);
            BoxSteps(s, r.s, p) && r.s.m == s.m && (r.ok ==> !r.s.disk.scrubMarker)
  {
    NoShrink(Records(s.disk));
    if s.disk.scrubMarker {
      hide Good, Shrinks;
      RemoveOutboxFileSteps(s, p);
      var removed := RemoveOutboxFile(s);
      if removed.ok {
        RemoveScrubMarkerSteps(removed.s, p);
        BoxStepsCompose(s, removed.s, RemoveScrubMarker(removed.s).s, p);
      }
    }
  }

  lemma OpenBoxSteps(s: Sys, stale: bool, p: Promise)
    requires Safe(s, p) && s.disk.state.Some?
    ensures var r := OpenBox(s, stale);
            BoxSteps(s, r.s, p) &&
            (r.ok ==> r.s.m.boxOpen && r.s.disk.outbox == Some(r.s.m.box) && !r.s.disk.scrubMarker &&
                      forall x :: x in r.s.m.box.records ==> !RecordExpired(x, s.clk)) &&
            (r.ok && stale ==> Records(r.s.disk) == []) &&
            (!r.ok ==> !r.s.m.boxOpen && r.s.m.box.records == [])
  {
    hide Good, LoadBox, Scrub, RemoveAged;
    var closed := CloseBox(s);
    if !s.m.scrubPending {
      RemoveAgedSteps(closed, stale, p);
      var aged := RemoveAged(closed, stale);
      assert BoxSteps(s, aged.s, p);
      if aged.ok {
        ScrubSteps(aged.s, p);
        var scrubbed := Scrub(aged.s);
        BoxStepsCompose(s, aged.s, scrubbed.s, p);
        if scrubbed.ok {
          LoadBoxSteps(scrubbed.s, p);
          BoxStepsCompose(s, scrubbed.s, LoadBox(scrubbed.s).s, p);
        }
      }
    }
  }
}
