/**
 * The coordinator as the service runs it: fields updated step by step, durable operations that may fail, and mutually
 * recursive flush, revoke and finish routines. Every method refines its function in TelemetryModel.
 */
module Coordinator {
  import opened Bytes
  import opened Lifecycle
  import opened Outcomes
  import opened TelemetryModel
  import opened TelemetryCalls

  lemma RevokingClears(s: Sys, now: nat)
    ensures Revoking(s, now).m.pending.None?
  {
  }

  class ExamTelemetryServiceCoordinator {
    const cfg: Config
    const env: nat -> Fault

    // the machine: storage attempts made so far, the clock of the current call, the durable objects
    var tick: nat
    var clk: nat
    var disk: Disk
    ghost var journal: seq<Disk>

    var pathKnown: bool
    var isOpen: bool
    var boxOpen: bool
    var scrubPending: bool
    var box: Box
    var life: Life
    var context: Identity
    var producer: Producer
    var nextSeq: nat
    var generations: nat
    var droppedSamples: nat
    var droppedBatches: nat
    var notAuthorized: nat
    var lossFirst: nat
    var pending: Option<Batch>
    var pendingStarted: nat
    var dirty: bool
    var cleanup: bool

    ghost function Memory(): Mem
      reads this
    {
      Mem(pathKnown, isOpen, boxOpen, scrubPending, box, life, context, producer, nextSeq, generations,
          droppedSamples, droppedBatches, notAuthorized, lossFirst, pending, pendingStarted, dirty, cleanup)
    }

    /** The object as a system value, with the outcome objects its caller passed in. */
    ghost function View(o: Observer): Sys
      reads this
    {
      Sys(cfg, env, tick, clk, disk, journal, Memory(), o)
    }

    constructor (cfg: Config, env: nat -> Fault, clk: nat, disk: Disk)
      ensures View(UNOBSERVED) == Sys(cfg, env, 0, clk, disk, [], BOOT, UNOBSERVED)
    {
      this.cfg, this.env, this.tick, this.clk, this.disk, this.journal := cfg, env, 0, clk, disk, [];
      pathKnown, isOpen, boxOpen, scrubPending, box := false, false, false, false, EMPTY_BOX;
      life, context, producer, nextSeq, generations := FRESH, UNBOUND, Zeros(16), 1, 0;
      droppedSamples, droppedBatches, notAuthorized, lossFirst := 0, 0, 0, 0;
      pending, pendingStarted, dirty, cleanup := None, 0, false, false;
    }

    // ---- durable primitives ----

    method Attempt(ghost o: Observer) returns (f: Fault)
      modifies this`tick
      ensures f == old(View(o)).Draw() && View(o) == old(View(o)).Tick()
    {
      f := env(tick);
      tick := tick + 1;
    }

    method Commit(d: Disk, ghost o: Observer)
      modifies this`disk, this`journal
      ensures View(o) == old(View(o)).Commit(d)
    {
      disk := d;
      journal := journal + [d];
    }

    method SetBox(b: Box, open: bool, ghost o: Observer)
      modifies this`box, this`boxOpen
      ensures var s := old(View(o)); View(o) == s.(m := s.m.(box := b, boxOpen := open))
    {
      box, boxOpen := b, open;
    }

    method SetDirty(value: bool, ghost o: Observer)
      modifies this`dirty
      ensures var s := old(View(o)); View(o) == s.(m := s.m.(dirty := value))
    {
      dirty := value;
    }

    method WriteOutbox(b: Box, enqueued: seq<Batch>, ghost o: Observer) returns (ok: bool)
      modifies this`tick, this`disk, this`journal, this`box, this`boxOpen
      ensures R(View(o), ok) == WriteBox(old(View(o)), b, enqueued)
    {
      var f := Attempt(o);
      if f.ok {
        SetBox(b, boxOpen, o);
        Commit(disk.(outbox := Some(b), enqueued := enqueued), o);
      }
      ok := f.ok;
    }

    method PruneExpired(now: nat, ghost o: Observer) returns (ok: bool)
      modifies this`tick, this`disk, this`journal, this`box, this`boxOpen
      ensures R(View(o), ok) == Prune(old(View(o)), now)
    {
      if NothingExpired(box, now) {
        return true;
      }
      ok := WriteOutbox(PruneBox(box, now, clk), disk.enqueued, o);
    }

    method CondemnOutbox(f: Fault, ghost o: Observer)
      modifies this`disk, this`journal
      ensures View(o) == Condemn(old(View(o)), f)
    {
      ghost var entry := View(o);
      if f.first {
        Commit(disk.(scrubMarker := true), o);
      }
      ghost var marked := View(o);
      assert marked == if f.first then entry.Commit(entry.disk.(scrubMarker := true)) else entry;
      if f.second {
        Commit(disk.(outbox := None), o);
      }
    }

    method Latch(ghost o: Observer)
      modifies this`box, this`boxOpen, this`scrubPending
      ensures var s := old(View(o));
              View(o) == s.(m := s.m.(box := s.m.box.(records := []), boxOpen := false, scrubPending := true))
    {
      box, boxOpen, scrubPending := box.(records := []), false, true;
    }

    method PurgeOutbox(ghost o: Observer) returns (ok: bool)
      modifies this`tick, this`disk, this`journal, this`box, this`boxOpen, this`scrubPending
      ensures R(View(o), ok) == Purge(old(View(o)))
    {
      hide BoxFrame, OutboxOnly, Condemn;
      if !boxOpen {
        return false;
      }
      if !env(tick).ok {
        var f := Attempt(o);
        Latch(o);
        CondemnOutbox(f, o);
        return false;
      }
      ok := WriteOutbox(box.(records := []), disk.enqueued, o);
    }

    method CloseOutbox(ghost o: Observer)
      modifies this`box, this`boxOpen
      ensures View(o) == CloseBox(old(View(o)))
    {
      boxOpen := false;
      box := box.(records := []);
    }

    method DeleteOutboxFile(ghost o: Observer) returns (ok: bool)
      modifies this`tick, this`disk, this`journal
      ensures R(View(o), ok) == RemoveOutboxFile(old(View(o)))
    {
      if disk.outbox.None? {
        return true;
      }
      var f := Attempt(o);
      if f.ok {
        Commit(disk.(outbox := None), o);
      }
      ok := f.ok;
    }

    method ScrubOutbox(ghost o: Observer) returns (ok: bool)
      modifies this`tick, this`disk, this`journal
      ensures R(View(o), ok) == Scrub(old(View(o)))
    {
      if !disk.scrubMarker {
        return true;
      }
      ok := DeleteOutboxFile(o);
      if !ok {
        return false;
      }
      var f := Attempt(o);
      if f.ok {
        Commit(disk.(scrubMarker := false), o);
      }
      ok := f.ok;
    }

    method LoadOutbox(ghost o: Observer) returns (ok: bool)
      modifies this`tick, this`disk, this`journal, this`box, this`boxOpen
      ensures R(View(o), ok) == LoadBox(old(View(o)))
    {
      hide WriteBox, Prune, CloseBox, BoxFrame, OutboxOnly;
      ghost var entry := View(o);
      if disk.outbox.None? {
        ok := WriteOutbox(EMPTY_BOX, disk.enqueued, o);
        if ok {
          SetBox(box, true, o);
        }
        return;
      }
      var f := Attempt(o);
      if !f.ok {
        return false;
      }
      SetBox(disk.outbox.value, true, o);
      ghost var loaded := View(o);
      ok := PruneExpired(clk, o);
      assert R(View(o), ok) == Prune(loaded, loaded.clk);
      if !ok {
        CloseOutbox(o);
      }
    }

    method OpenOutbox(stale: bool, ghost o: Observer) returns (ok: bool)
      modifies this`tick, this`disk, this`journal, this`box, this`boxOpen
      ensures R(View(o), ok) == OpenBox(old(View(o)), stale)
    {
      hide CloseBox, RemoveOutboxFile, Scrub, LoadBox, BoxFrame, OutboxOnly;
      ghost var entry := View(o);
      CloseOutbox(o);
      ghost var closed := View(o);
      assert closed == CloseBox(entry);
      if scrubPending {
        return false;
      }
      if stale {
        ok := DeleteOutboxFile(o);
        assert R(View(o), ok) == RemoveAged(closed, stale);
        if !ok {
          return false;
        }
      }
      ghost var aged := View(o);
      ok := ScrubOutbox(o);
      assert R(View(o), ok) == Scrub(aged);
      if ok {
        ok := LoadOutbox(o);
      }
    }

    method PersistState(ghost o: Observer) returns (ok: bool)
      modifies this`tick, this`disk, this`journal, this`dirty
      ensures R(View(o), ok) == WriteState(old(View(o)))
    {
      if !isOpen {
        return true;
      }
      if pending.Some? && cfg.wireSize(pending.value) == 0 {
        return false;
      }
      var f := Attempt(o);
      if f.ok {
        var img := Image(
          context, producer, nextSeq, generations, life.state, droppedSamples, droppedBatches, notAuthorized,
          lossFirst, life.revoked, pendingStarted, pending);
        SetDirty(false, o);
        Commit(disk.(state := Some(img)), o);
      }
      ok := f.ok;
    }

    method WriteRefusalMarker(ghost o: Observer) returns (ok: bool)
      modifies this`tick, this`disk, this`journal
      ensures R(View(o), ok) == WriteMarker(old(View(o)))
    {
      if disk.blocked {
        return false;
      }
      var f := Attempt(o);
      if f.ok || f.first {
        Commit(disk.(blocked := true), o);
      }
      ok := f.ok;
    }

    method RemoveRefusalMarker(ghost o: Observer) returns (ok: bool)
      modifies this`tick, this`disk, this`journal
      ensures R(View(o), ok) == RemoveMarker(old(View(o)))
    {
      if !disk.blocked {
        return true;
      }
      var f := Attempt(o);
      if f.ok {
        Commit(disk.(blocked := false), o);
      }
      ok := f.ok;
    }

    // ---- loss counters ----

    method ExpireLosses(now: nat, ghost o: Observer)
      modifies this`droppedSamples, this`droppedBatches, this`notAuthorized, this`lossFirst, this`dirty
      ensures View(o) == ExpireLoss(old(View(o)), now)
    {
      var t := if now == 0 then clk else now;
      if ExpiredAt(lossFirst, t) {
        SetLossFields(0, 0, 0, 0);
        SetDirty(true, o);
      }
    }

    method TouchLosses(now: nat, ghost o: Observer)
      modifies this`droppedSamples, this`droppedBatches, this`notAuthorized, this`lossFirst, this`dirty
      ensures View(o) == TouchLoss(old(View(o)), now)
    {
      ExpireLosses(now, o);
      if lossFirst == 0 {
        lossFirst := if now == 0 then clk else Min(now, clk);
      }
    }

    method AddDropped(samples: nat, batches: nat, now: nat, ghost o: Observer)
      modifies this`droppedSamples, this`droppedBatches, this`notAuthorized, this`lossFirst, this`dirty
      ensures View(o) == CountDropped(old(View(o)), samples, batches, now)
    {
      TouchLosses(now, o);
      droppedSamples := AddSaturated(droppedSamples, samples);
      droppedBatches := AddSaturated(droppedBatches, batches);
    }

    // ---- the recursive routines ----

    method ReopenOutbox(ghost o: Observer) returns (ok: bool)
      modifies this`tick, this`disk, this`journal, this`box, this`boxOpen, this`scrubPending
      ensures R(View(o), ok) == Reopen(old(View(o)))
    {
      hide OpenBox, BoxFrame, OutboxOnly;
      if boxOpen {
        return true;
      }
      ghost var entry := View(o);
      var f := Attempt(o);
      scrubPending := false;
      assert View(o) == entry.Tick().(m := entry.m.(scrubPending := false));
      ok := OpenOutbox(f.first, o);
    }

    method UnblockStore(o: Observer) returns (ok: bool, o': Observer)
      modifies this`tick, this`disk, this`journal, this`cleanup
      ensures R(View(o'), ok) == Unblock(old(View(o)))
    {
      hide RemoveMarker, Observer.Fail, Observer.SetStopCleanup, Observer.SetFlushCleanup;
      ok := RemoveRefusalMarker(o);
      if !ok {
        return false, o.Fail(CleanupFailed);
      }
      cleanup := false;
      o' := o.SetStopCleanup(CleanupComplete).SetFlushCleanup(CleanupComplete);
    }

    method FinishCleanup(o: Observer) returns (ok: bool, o': Observer)
      modifies this`tick, this`disk, this`journal, this`box, this`boxOpen, this`scrubPending, this`cleanup
      ensures R(View(o'), ok) == CleanUp(old(View(o)))
    {
      hide Reopen, Purge, Unblock, BoxFrame, OutboxOnly, Observer.Fail;
      ghost var entry := View(o);
      ok := ReopenOutbox(o);
      assert R(View(o), ok) == Reopen(entry);
      if !ok {
        return false, o.Fail(CleanupFailed);
      }
      ghost var reopened := View(o);
      ok := PurgeOutbox(o);
      assert R(View(o), ok) == Purge(reopened);
      if !ok {
        return false, o.Fail(CleanupFailed);
      }
      ok, o' := UnblockStore(o);
    }

    method FallBack(o: Observer) returns (o': Observer)
      modifies this`tick, this`disk, this`journal, this`box, this`boxOpen, this`scrubPending
      ensures View(o') == RevocationFallback(old(View(o)))
    {
      o' := o.Fail(StateFailed).PublicationFailed();
      var marked := WriteRefusalMarker(o');
      if marked {
        o' := o'.SetWitness(RefusalMarkerConfirmed).SetPublication(MarkerConfirmed);
      } else {
        o' := o'.SetWitness(WitnessUnconfirmed).Fail(RevocationUnconfirmed);
      }
      var purged := PurgeOutbox(o');
      if !purged {
        o' := o'.Fail(CleanupFailed);
      }
    }

    method PersistRevocation(now: nat, o: Observer) returns (ok: bool, o': Observer)
      modifies this
      ensures R(View(o'), ok) == TelemetryModel.PersistRevocation(old(View(o)), now)
      decreases if pending.Some? then 1 else 0, 3
    {
      ok := PersistState(o);
      if !ok {
        o' := FallBack(o);
        return;
      }
      o' := o.SetWitness(ProtectedStateConfirmed).SetPublication(CurrentStateConfirmed);
      ok, o' := Flush(now, o');
    }

    method CountPending(now: nat, ghost o: Observer)
      modifies this`droppedSamples, this`droppedBatches, this`notAuthorized, this`lossFirst, this`dirty
      ensures var s := old(View(o));
              View(o) == if s.m.pending.None? then s else CountDropped(s, |s.m.pending.value.samples|, 1, now)
    {
      hide CountDropped;
      if pending.Some? {
        AddDropped(|pending.value.samples|, 1, now, o);
      }
    }

    method Revoke(now: nat, o: Observer) returns (o': Observer)
      modifies this`pending, this`pendingStarted, this`life, this`cleanup, this`droppedSamples, this`droppedBatches,
               this`notAuthorized, this`lossFirst, this`dirty
      ensures View(o') == Revoking(old(View(o)), now)
    {
      hide CountDropped;
      CountPending(now, o);
      pending, pendingStarted := None, 0;
      life := life.Stop();
      cleanup, dirty := true, true;
      o' := o.SetFlushCleanup(CleanupPending);
    }

    method RevokePending(now: nat, o: Observer) returns (ok: bool, o': Observer)
      modifies this
      ensures R(View(o'), ok) == TelemetryModel.RevokePending(old(View(o)), now)
      decreases 1, 0
    {
      hide Revoking, TelemetryModel.PersistRevocation;
      RevokingClears(View(o), now);
      ghost var entry := View(o);
      o' := Revoke(now, o);
      ghost var revoking := View(o');
      assert View(o'.(stop := None)) == revoking.(o := revoking.o.(stop := None));
      var persisted;
      persisted, o' := PersistRevocation(now, o'.(stop := None));
      return false, o'.(stop := o.stop, stopLog := o.stopLog);
    }

    method RetirePending()
      modifies this`nextSeq, this`pending, this`pendingStarted, this`dirty
      ensures Memory() ==
              old(Memory()).(nextSeq := old(nextSeq) + 1, pending := None, pendingStarted := 0, dirty := true)
    {
      nextSeq := nextSeq + 1;
      pending, pendingStarted, dirty := None, 0, true;
    }

    method CompletePending(o: Observer) returns (ok: bool, o': Observer)
      modifies this`tick, this`disk, this`journal, this`nextSeq, this`pending, this`pendingStarted, this`dirty
      ensures R(View(o'), ok) == TelemetryModel.CompletePending(old(View(o)))
    {
      hide WriteState, Observer.SetPending, Observer.SetPublication, Observer.FailFlush, Observer.PublicationFailed;
      RetirePending();
      o' := o.SetPending(PendingCompleted);
      ok := PersistState(o');
      if !ok {
        return false, o'.FailFlush(StateFailed).PublicationFailed();
      }
      o' := o'.SetPublication(CurrentStateConfirmed);
    }

    method FinishPending(now: nat, o: Observer) returns (ok: bool, o': Observer)
      modifies this
      ensures R(View(o'), ok) == TelemetryModel.FinishPending(old(View(o)), now)
      decreases if pending.Some? then 1 else 0, 1
    {
      if pending.None? {
        return true, o;
      }
      var b := pending.value;
      var i := FindBatch(box.records, b.producer, b.sequence);
      if i < |box.records| {
        if box.records[i].batch != b {
          return false, o.FailFlush(PendingConflict);
        }
      } else {
        if LossOf(box.losses, b.context.sessionId).expired != 0 {
          ok, o' := RevokePending(if now == 0 then clk else now, o.SetPending(RevokedAgeUncertain));
          return;
        }
        if !boxOpen || !CanEnqueue(cfg, box.records, b) {
          return false, o.FailFlush(EnqueueUnfinished);
        }
        ok := WriteOutbox(box.(records := box.records + [Record(b, clk)]), disk.enqueued + [b], o);
        if !ok {
          return false, o.FailFlush(EnqueueUnfinished);
        }
      }
      ok, o' := CompletePending(o);
    }

    method Flush(now: nat, o: Observer) returns (ok: bool, o': Observer)
      modifies this
      ensures R(View(o'), ok) == TelemetryModel.Flush(old(View(o)), now)
      decreases if pending.Some? then 1 else 0, 2
    {
      o' := o;
      var t := if now == 0 then clk else now;
      ExpireLosses(t, o);
      if PendingExpiredNow(t) {
        ok, o' := RevokePending(t, o.SetPending(RevokedExpired));
        return;
      }
      if dirty {
        ok := PersistState(o);
        if !ok {
          return false, o.Fail(StateFailed).PublicationFailed();
        }
        o' := o.SetPublication(CurrentStateConfirmed);
      }
      if cleanup {
        ok, o' := FinishCleanup(o');
        if !ok {
          return;
        }
      }
      ok, o' := FinishPending(t, o');
    }

    predicate PendingExpiredNow(now: nat)
      reads this
      ensures PendingExpiredNow(now) == PendingExpired(Memory(), now)
    {
      pending.Some? &&
      var stamp := Min(pendingStarted, pending.value.firstEnqueued);
      stamp == 0 || (now >= stamp && now - stamp >= RETENTION_MS)
    }

    // ---- recovery ----

    method ReplayArchive(ids: seq<Identity>) returns (l: Option<Life>)
      ensures l == Replay(FRESH, ids)
    {
      var restored := FRESH;
      for i := 0 to |ids|
        invariant Replay(FRESH, ids) == Replay(restored, ids[i..])
      {
        if !ids[i].Valid() || restored.IsRevoked(ids[i]) || !restored.CanSetContext(ids[i]) {
          return None;
        }
        assert ids[i..][1..] == ids[i + 1..];
        restored := restored.SetContext(ids[i]).Stop();
      }
      return Some(restored);
    }

    method SetContextFields(c: Identity, l: Life, p: Producer, sequence: nat, count: nat)
      modifies this`context, this`life, this`producer, this`nextSeq, this`generations
      ensures Memory() == old(Memory()).(context := c, life := l, producer := p, nextSeq := sequence,
                                         generations := count)
    {
      context, life, producer, nextSeq, generations := c, l, p, sequence, count;
    }

    method SetLossFields(samples: nat, batches: nat, refused: nat, first: nat)
      modifies this`droppedSamples, this`droppedBatches, this`notAuthorized, this`lossFirst
      ensures Memory() == old(Memory()).(droppedSamples := samples, droppedBatches := batches,
                                         notAuthorized := refused, lossFirst := first)
    {
      droppedSamples, droppedBatches, notAuthorized, lossFirst := samples, batches, refused, first;
    }

    method ClearPending()
      modifies this`pending, this`pendingStarted
      ensures Memory() == old(Memory()).(pending := None, pendingStarted := 0)
    {
      pending, pendingStarted := None, 0;
    }

    method StartFresh()
      modifies this`cleanup, this`pathKnown, this`isOpen, this`boxOpen
      ensures Memory() == old(Memory()).(cleanup := false, pathKnown := true, isOpen := true, boxOpen := false)
    {
      pathKnown, isOpen, boxOpen, cleanup := true, true, false, false;
    }

    method Adopt(img: Image, restored: Life)
      modifies this`life, this`context, this`producer, this`nextSeq, this`generations, this`droppedSamples,
               this`droppedBatches, this`notAuthorized, this`lossFirst, this`pending, this`pendingStarted, this`dirty
      ensures Memory() == LoadedMem(old(Memory()), img, restored, clk)
    {
      SetContextFields(img.context, restored, img.producer, img.nextSeq, img.generations);
      SetLossFields(img.droppedSamples, img.droppedBatches, img.notAuthorized, Min(img.lossFirst, clk));
      pending, pendingStarted, dirty := img.pending, img.pendingStarted, lossFirst != img.lossFirst;
    }

    /** The loader: nothing changes unless every check passes. */
    method LoadState(img: Image, ghost o: Observer) returns (ok: bool)
      modifies this`life, this`context, this`producer, this`nextSeq, this`generations, this`droppedSamples,
               this`droppedBatches, this`notAuthorized, this`lossFirst, this`pending, this`pendingStarted, this`dirty
      ensures var s := old(View(o));
              var loaded := LoadImage(s.cfg, img, s.clk, s.m);
              ok == loaded.Some? && View(o) == if ok then s.(m := loaded.value) else s
    {
      hide Identity.Valid, LoadedMem, Replay;
      if !CountersLoad(img) || !ContextLoads(img) || |img.revoked| > MAX_REVOKED {
        return false;
      }
      var replayed := ReplayArchive(img.revoked);
      if replayed.None? || !replayed.value.CanSetContext(img.context) {
        return false;
      }
      var restored := replayed.value.SetContext(img.context);
      if restored.IsRevoked(img.context) && img.state != Revoked {
        return false;
      }
      if !PendingLoads(img, clk) {
        return false;
      }
      Adopt(img, restored.Restart(Known(img.state)));
      return true;
    }

    /** Every durable batch belongs here and no sequence occurs twice. */
    method CheckOutbox() returns (ok: bool)
      ensures ok == Consistent(Memory())
    {
      var records := box.records;
      var seen: set<nat> := {};
      for i := 0 to |records|
        invariant forall k :: k in seen <==> exists j :: 0 <= j < i && records[j].batch.sequence == k
        invariant forall j :: 0 <= j < i ==>
                    records[j].batch.context == context && records[j].batch.producer == producer &&
                    (records[j].batch.sequence < nextSeq ||
                     (pending.Some? && records[j].batch.sequence == pending.value.sequence))
        invariant forall j, k :: 0 <= j < k < i ==> records[j].batch.sequence != records[k].batch.sequence
      {
        var b := records[i].batch;
        if b.context != context || b.producer != producer ||
           (b.sequence >= nextSeq && (pending.None? || b.sequence != pending.value.sequence)) {
          return false;
        }
        if b.sequence in seen {
          return false;
        }
        seen := seen + {b.sequence};
      }
      return true;
    }

    method ShutDown(ghost o: Observer)
      modifies this`box, this`boxOpen, this`isOpen
      ensures View(o) == Shut(old(View(o)))
    {
      CloseOutbox(o);
      isOpen := false;
    }

    method Recover(aged: bool, o: Observer) returns (result: OpenResult, o': Observer)
      modifies this
      ensures OpenOut(View(o'), result) == TelemetryModel.Recover(old(View(o)), aged)
    {
      hide Consistent, TelemetryModel.RevokePending, TelemetryModel.Flush, Shut;
      var ok := CheckOutbox();
      if !ok {
        ShutDown(o);
        return Inconsistent, o;
      }
      if aged {
        ok, o' := RevokePending(clk, o);
        ShutDown(o');
        return PendingFileExpired, o';
      }
      ok, o' := Flush(0, o);
      if !ok {
        ShutDown(o');
        return FlushFailed, o';
      }
      return Opened, o';
    }

    method OpenLoadedStore(stale: bool, o: Observer) returns (result: OpenResult, o': Observer)
      modifies this
      ensures OpenOut(View(o'), result) == OpenLoaded(old(View(o)), stale)
    {
      hide OpenBox, TelemetryModel.Recover, BoxFrame, OutboxOnly;
      ghost var entry := View(o);
      var aged := pending.Some? && stale;
      var ok := OpenOutbox(stale, o);
      ghost var loaded := View(o);
      assert R(loaded, ok) == OpenBox(entry, stale);
      if !ok {
        isOpen := false;
        return OutboxFailed, o;
      }
      isOpen := true;
      cleanup := life.state == Revoked;
      assert View(o) == loaded.(m := loaded.m.(isOpen := true, cleanup := loaded.m.life.state == Revoked));
      result, o' := Recover(aged, o);
    }

    /** A first start forgets whatever an earlier attempt left in memory. */
    method Forget()
      modifies this`life, this`context, this`producer, this`nextSeq, this`generations, this`droppedSamples,
               this`droppedBatches, this`notAuthorized, this`lossFirst, this`pending, this`pendingStarted, this`cleanup,
               this`pathKnown, this`isOpen, this`boxOpen
      ensures Memory() == BOOT.(pathKnown := true, isOpen := true, scrubPending := scrubPending, box := box,
                                dirty := dirty)
    {
      SetContextFields(UNBOUND, FRESH, Zeros(16), 1, 0);
      SetLossFields(0, 0, 0, 0);
      ClearPending();
      StartFresh();
    }

    method OpenFreshStore(stale: bool, o: Observer) returns (result: OpenResult, o': Observer)
      modifies this
      ensures OpenOut(View(o'), result) == OpenFresh(old(View(o)), stale)
    {
      hide WriteState, OpenLoaded, Shut;
      ghost var s := View(o);
      Forget();
      assert View(o) == Fresh(s);
      var ok := PersistState(o);
      if !ok {
        ShutDown(o);
        return InitialStateFailed, o;
      }
      result, o' := OpenLoadedStore(stale, o);
    }

    method OpenSavedStore(img: Image, stale: bool, o: Observer) returns (result: OpenResult, o': Observer)
      modifies this
      ensures OpenOut(View(o'), result) == OpenSaved(old(View(o)), img, stale)
    {
      hide LoadImage, OpenLoaded;
      var ok := LoadState(img, o);
      if !ok {
        return StateCorrupt, o;
      }
      if pending.Some? && disk.outbox.None? {
        return PendingStorageMissing, o;
      }
      result, o' := OpenLoadedStore(stale, o);
    }

    method CloseStore(o: Observer) returns (ok: bool, o': Observer)
      modifies this
      ensures R(View(o'), ok) == CloseLocked(old(View(o)))
    {
      hide TelemetryModel.Flush, CloseBox;
      if !isOpen {
        return true, o;
      }
      ok, o' := Flush(0, o);
      if ok {
        CloseOutbox(o');
        isOpen := false;
      }
    }

    // ---- public operations ----

    /** Every public operation reads the clock once and starts counting its durable writes afresh. */
    method Enter(clock: nat)
      modifies this`clk, this`journal
      ensures View(UNOBSERVED) == Begin(old(View(UNOBSERVED)), clock)
    {
      clk := clock;
      journal := [];
    }

    method Open(stale: bool, clock: nat) returns (result: OpenResult, ghost o': Observer)
      modifies this
      ensures OpenOut(View(o'), result) == TelemetryModel.Open(Begin(old(View(UNOBSERVED)), clock), stale)
    {
      hide CloseLocked, OpenSaved, OpenFresh, Begin;
      Enter(clock);
      var ok, o := CloseStore(UNOBSERVED);
      if !ok {
        return ReopenRefused, o;
      }
      pathKnown := true;
      if disk.blocked {
        return Blocked, o;
      }
      if disk.state.Some? {
        result, o' := OpenSavedStore(disk.state.value, stale, o);
      } else if disk.outbox.Some? {
        return StateMissing, o;
      } else if pending.Some? {
        return PendingStorageMissing, o;
      } else {
        result, o' := OpenFreshStore(stale, o);
      }
    }

    method SetLife(l: Life, ghost o: Observer)
      modifies this`life
      ensures var s := old(View(o)); View(o) == s.(m := s.m.(life := l))
    {
      life := l;
    }

    method EnableContext(id: Identity, o: Observer) returns (ok: bool, o': Observer)
      modifies this`life, this`tick, this`disk, this`journal, this`dirty
      ensures R(View(o'), ok) == Authorize(old(View(o)), id)
    {
      hide WriteState, Life.Enable, Life.Disconnect, Life.AcceptsEnable;
      o' := o;
      var accepted := life.AcceptsEnable(id);
      SetLife(life.Enable(id), o);
      ok := PersistState(o);
      if ok {
        return accepted, o;
      }
      SetLife(life.Disconnect(), o);
      SetDirty(true, o);
    }

    method BindContext(id: Identity, candidate: Producer, ghost o: Observer)
      modifies this`life, this`context, this`producer, this`nextSeq, this`generations, this`droppedSamples,
               this`droppedBatches, this`notAuthorized, this`lossFirst
      ensures View(o) == NewContext(old(View(o)), id, candidate)
    {
      hide Life.SetContext;
      SetContextFields(id, life.SetContext(id), candidate, 1, 1);
      SetLossFields(0, 0, 0, 0);
    }

    /** `candidate` is the random producer candidate, None when randomness is unavailable. */
    method OnServerEnable(id: Identity, candidate: Option<Producer>, clock: nat) returns (ok: bool, ghost o': Observer)
      modifies this
      ensures R(View(o'), ok) == ServerEnable(Begin(old(View(UNOBSERVED)), clock), id, candidate)
    {
      hide TelemetryModel.Flush, Authorize, NewContext, Begin, Identity.Valid, Life.CanSetContext, Life.IsRevoked;
      ghost var entry := Begin(View(UNOBSERVED), clock);
      Enter(clock);
      if !isOpen || !id.Valid() {
        return false, entry.o;
      }
      var o;
      ok, o := Flush(0, UNOBSERVED);
      if !ok || life.IsRevoked(id) {
        return false, o;
      }
      if !context.Empty() && life.state != Revoked {
        if context != id {
          return false, o;
        }
        ok, o' := EnableContext(id, o);
        return;
      }
      if candidate.None? || !HasNonzero(candidate.value) || !life.CanSetContext(id) {
        return false, o;
      }
      BindContext(id, candidate.value, o);
      ok, o' := EnableContext(id, o);
    }

    /** The report a flushing operation starts with. */
    method EnterReport() returns (f: FlushOutcome)
      ensures f == EnterFlush(Memory())
    {
      f := FLUSH_OUTCOME.(before := ObservedOpen(life.state));
      if pending.Some? {
        f := f.(pending := PendingRetained);
      }
      if cleanup {
        f := f.(cleanup := CleanupPending);
      }
    }

    /** The report a flushing operation ends with. */
    method LeaveReport(o: Observer) returns (o': Observer)
      ensures View(o') == LeaveFlush(View(o))
    {
      o' := o;
      if o.flush.Some? {
        var f := o.flush.value.(after := if isOpen then ObservedOpen(life.state) else ObservedClosed);
        if cleanup {
          f := f.(cleanup := CleanupPending);
        }
        if dirty && f.publication == CurrentStateConfirmed {
          f := f.(publication := EarlierSnapshotConfirmed);
        }
        o' := o.(flush := Some(f));
      }
    }

    /** Serves the end of a session and the shutdown of the service alike. */
    method OnDisconnectWithOutcome(clock: nat) returns (o': Observer)
      modifies this
      ensures View(o') == ServerDisconnect(Begin(old(View(UNOBSERVED)), clock))
    {
      hide TelemetryModel.Flush, LeaveFlush, EnterFlush, Life.Disconnect;
      Enter(clock);
      if !isOpen {
        return UNOBSERVED.(flush := Some(FLUSH_OUTCOME));
      }
      var f := EnterReport();
      life, dirty := life.Disconnect(), true;
      var ok, o := Flush(0, UNOBSERVED.(flush := Some(f)));
      o' := LeaveReport(o);
    }

    method CloseWithOutcome(clock: nat) returns (o': Observer)
      modifies this
      ensures View(o') == Close(Begin(old(View(UNOBSERVED)), clock))
    {
      hide CloseLocked, LeaveFlush, EnterFlush;
      Enter(clock);
      if !isOpen {
        return UNOBSERVED.(flush := Some(FLUSH_OUTCOME));
      }
      var f := EnterReport();
      var ok, o := CloseStore(UNOBSERVED.(flush := Some(f)));
      o' := LeaveReport(o);
    }

    method StopContext()
      modifies this`life, this`pending, this`pendingStarted, this`cleanup, this`dirty
      ensures Memory() == old(Memory()).(life := old(life).Stop(), pending := None, pendingStarted := 0,
                                         cleanup := true, dirty := true)
    {
      life := life.Stop();
      pending, pendingStarted := None, 0;
      cleanup, dirty := true, true;
    }

    method OnExplicitStopWithOutcome(clock: nat) returns (o': Observer)
      modifies this
      ensures View(o') == ExplicitStop(Begin(old(View(UNOBSERVED)), clock))
    {
      hide TelemetryModel.PersistRevocation, Life.Stop;
      Enter(clock);
      if !isOpen {
        return UNOBSERVED.(stop := Some(STOP_OUTCOME));
      }
      if !context.Bound() {
        return UNOBSERVED.(stop := Some(STOP_OUTCOME.(applicability := NotBound)));
      }
      var outcome := STOP_OUTCOME.(
        applicability := Applicable, cleanup := CleanupPending,
        memory := if life.state == Revoked then AlreadyRevoked else RevokedNow);
      StopContext();
      var ok;
      ok, o' := PersistRevocation(clk, UNOBSERVED.(stop := Some(outcome)));
    }

    // ---- collection and delivery ----

    method DropSamples(samples: nat, now: nat, o: Observer) returns (o': Observer)
      modifies this
      ensures View(o') == DropRemaining(old(View(o)), samples, now)
    {
      hide CountDropped, TelemetryModel.Flush;
      AddDropped(samples, Ceiling(samples), now, o);
      dirty := true;
      var ok;
      ok, o' := Flush(now, o);
    }

    method LoseTail(samples: nat, now: nat, ghost o: Observer)
      modifies this`tick, this`disk, this`journal, this`droppedSamples, this`droppedBatches, this`notAuthorized,
               this`lossFirst, this`dirty
      ensures View(o) == DropTail(old(View(o)), samples, now)
    {
      hide CountDropped, WriteState;
      if samples == 0 {
        return;
      }
      AddDropped(samples, Ceiling(samples), now, o);
      dirty := true;
      var ok := PersistState(o);
    }

    /** Stages the next write-ahead intent unless the sequence, the codec or the quota forbids it. */
    method StageNext(samples: seq<Sample>, now: nat, ghost o: Observer) returns (ok: bool)
      modifies this`pending, this`pendingStarted, this`dirty
      ensures var s := old(View(o));
              var b := NextBatch(s, samples, now);
              ok == CanStage(s, b) && View(o) == if ok then Stage(s, b, now) else s
    {
      if nextSeq == U64_MAX {
        return false;
      }
      var b := Batch(context, producer, nextSeq, Min(now, clk), samples);
      var size := cfg.wireSize(b);
      if size == 0 || |box.records| >= MAX_OUTBOX_BATCHES || size + BoxBytes(cfg, box.records) > MAX_OUTBOX_BYTES {
        return false;
      }
      pending, pendingStarted, dirty := Some(b), Min(now, clk), true;
      return true;
    }

    /** Cuts the samples into batches, each made durable as an intent before it is enqueued. */
    method IngestAll(samples: seq<Sample>, now: nat, o: Observer) returns (ok: bool, o': Observer)
      modifies this
      ensures R(View(o'), ok) == IngestLoop(old(View(o)), samples, now)
    {
      hide CanStage, Stage, NextBatch, TelemetryModel.Flush, DropRemaining, DropTail;
      o' := o;
      var offset := 0;
      while offset < |samples|
        invariant offset <= |samples|
        invariant IngestLoop(View(o'), samples[offset..], now) == IngestLoop(old(View(o)), samples, now)
      {
        ghost var rest := samples[offset..];
        var n := Min(|samples| - offset, BATCH_LIMIT);
        assert rest[..n] == samples[offset..offset + n];
        assert rest[n..] == samples[offset + n..];
        var staged := StageNext(samples[offset..offset + n], now, o');
        if !staged {
          o' := DropSamples(|samples| - offset, now, o');
          return false, o';
        }
        offset := offset + n;
        ok, o' := Flush(now, o');
        if !ok {
          LoseTail(|samples| - offset, now, o');
          return;
        }
      }
      ok := true;
    }

    method RefuseSamples(samples: nat, now: nat, o: Observer) returns (o': Observer)
      modifies this
      ensures View(o') == Unauthorized(old(View(o)), samples, now)
    {
      hide TouchLoss, TelemetryModel.Flush;
      TouchLosses(now, o);
      notAuthorized, dirty := AddSaturated(notAuthorized, samples), true;
      var ok;
      ok, o' := Flush(now, o);
    }

    method IngestSamples(samples: seq<Sample>, now: nat, clock: nat) returns (ok: bool, ghost o': Observer)
      modifies this
      ensures R(View(o'), ok) == Ingest(Begin(old(View(UNOBSERVED)), clock), samples, now)
    {
      hide TelemetryModel.Flush, DropRemaining, IngestLoop, Unauthorized;
      Enter(clock);
      if !isOpen {
        return false, UNOBSERVED;
      }
      if samples == [] {
        return true, UNOBSERVED;
      }
      var o;
      if life.state != Enabled {
        o := RefuseSamples(|samples|, now, UNOBSERVED);
        return false, o;
      }
      var t := if now == 0 then clk else now;
      ok, o := Flush(t, UNOBSERVED);
      if !ok {
        o := DropSamples(|samples|, t, o);
        return false, o;
      }
      ok, o' := IngestAll(samples, t, o);
    }

    method ApplyAck(a: Ack, now: nat, ghost o: Observer) returns (result: AckResult)
      modifies this`tick, this`disk, this`journal, this`box, this`boxOpen
      ensures Acked(View(o), result) == Acknowledge(old(View(o)), a, now)
    {
      hide WriteBox, BoxFrame, OutboxOnly, AckedBox;
      var records := box.records;
      var i := FindAcked(cfg, records, a);
      if !boxOpen || i == |records| || cfg.hash(records[i].batch) != a.hash {
        return IgnoredMismatch;
      }
      if a.status == Unavailable {
        var ok := WriteOutbox(box, disk.enqueued, o);
        return if ok then RetryScheduled else StorageFailed;
      }
      var retire := a.status == Accepted || a.status == Duplicate;
      var ok := WriteOutbox(AckedBox(box, i, a, Min(now, clk)), disk.enqueued, o);
      result := if !ok then StorageFailed else if retire then Retired else DeletedTerminal;
    }

    method OnServerAck(a: Ack, now: nat, clock: nat) returns (result: AckResult, ghost o': Observer)
      modifies this
      ensures Acked(View(o'), result) == ServerAck(Begin(old(View(UNOBSERVED)), clock), a, now)
    {
      hide TelemetryModel.Flush, Acknowledge, BoxFrame, OutboxOnly;
      Enter(clock);
      if !isOpen {
        return IgnoredMismatch, UNOBSERVED;
      }
      var t := if now == 0 then clk else now;
      var ok, o := Flush(now, UNOBSERVED);
      if !ok {
        return StorageFailed, o;
      }
      result := ApplyAck(a, t, o);
      o' := o;
    }

    method MaintainStore(now: nat, o: Observer) returns (ok: bool, o': Observer)
      modifies this
      ensures R(View(o'), ok) == Maintenance(old(View(o)), now)
    {
      hide TelemetryModel.Flush, Prune, BoxFrame, OutboxOnly;
      var t := if now == 0 then clk else now;
      ok, o' := Flush(t, o);
      if ok {
        ok := PruneExpired(t, o');
      }
    }

    /** `pick` stands for the outbox's own choice among its unexpired records. */
    method NextBatchToSend(now: nat, pick: nat, clock: nat) returns (batch: Option<Batch>, ghost o': Observer)
      modifies this
      ensures Sent(View(o'), batch) == NextToSend(Begin(old(View(UNOBSERVED)), clock), now, pick)
    {
      hide Maintenance, RecordExpired;
      Enter(clock);
      ghost var entry := View(UNOBSERVED);
      assert entry == Begin(old(View(UNOBSERVED)), clock);
      if !isOpen {
        return None, UNOBSERVED;
      }
      var t := if now == 0 then clk else now;
      var ok, o := MaintainStore(now, UNOBSERVED);
      assert R(View(o), ok) == Maintenance(entry, now);
      if !ok || life.state != Enabled {
        return None, o;
      }
      var records := box.records;
      batch := if pick < |records| && !RecordExpired(records[pick], t) then Some(records[pick].batch) else None;
      o' := o;
    }

    method ScrubBlocked(ghost o: Observer) returns (ok: bool)
      modifies this`tick, this`disk, this`journal
      ensures R(View(o), ok) == ScrubBehindMarker(old(View(o)))
    {
      hide RemoveOutboxFile, BoxFrame, OutboxOnly;
      ok := DeleteOutboxFile(o);
      if !ok || disk.state.None? {
        return false;
      }
      var f := Attempt(o);
      if f.ok {
        Commit(disk.(state := None), o);
      }
      return false;
    }

    method Maintain(now: nat, clock: nat) returns (ok: bool, ghost o': Observer)
      modifies this
      ensures R(View(o'), ok) == TelemetryModel.Maintain(Begin(old(View(UNOBSERVED)), clock), now)
    {
      hide Maintenance, ScrubBehindMarker;
      Enter(clock);
      if isOpen {
        ok, o' := MaintainStore(now, UNOBSERVED);
        return;
      }
      o' := UNOBSERVED;
      if !pathKnown || !disk.blocked {
        return false, o';
      }
      ok := ScrubBlocked(UNOBSERVED);
    }
  }
}
