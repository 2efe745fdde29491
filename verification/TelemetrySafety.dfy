/** The recursive durable routines keep the invariant at every durable write. */
module TelemetrySafety {
  import opened Bytes
  import opened Lifecycle
  import opened Outcomes
  import opened TelemetryModel
  import opened TelemetryInvariant

  /** Same coordinator fields apart from what a state write or an outbox step may change. */
  lemma MemAfterBox(s: Sys, t: Sys, p: Promise)
    requires OpenOk(s, p) && BoxSteps(s, t, p)
    requires t.m.boxOpen ==> t.disk.outbox == Some(t.m.box) && !t.disk.scrubMarker
    requires !t.m.boxOpen ==> t.m.box.records == [] && t.m.cleanup
    ensures OpenOk(t, p)
    ensures Strict(s) ==> Strict(t)
    ensures !s.m.dirty ==> Saved(t.disk.state.value, t.m)
  {
    hide Good, ImageOk, DistinctSequences;
    var m := s.m;
    TrackedShrinks(m.life.state != Revoked, m.context, m.producer, m.nextSeq, m.pending, Records(t.disk),
                   Records(s.disk), s.disk.enqueued);
  }

  lemma WriteStateSafe(s: Sys, p: Promise)
    requires OpenOk(s, p)
    ensures var r := WriteState(s);
            OpenOk(r.s, p) && Frame(s, r.s) && r.s.o == s.o &&
            r.s.m == s.m.(dirty := r.s.m.dirty) && (!s.m.dirty ==> !r.s.m.dirty) &&
            r.s.disk == s.disk.(state := r.s.disk.state) &&
            (r.ok ==> !r.s.m.dirty && r.s.disk.state == Some(ImageOf(s.m))) &&
            (!r.ok ==> r.s == s.Tick())
  {
    hide Tracked, History, ArchiveOk;
    if s.Draw().ok {
      var d := s.disk.(state := Some(ImageOf(s.m)));
      assert Good(s.cfg, d, s.clk, p);
    }
  }

  lemma WriteMarkerSafe(s: Sys, p: Promise)
    requires OpenOk(s, p) && s.m.cleanup
    ensures var r := WriteMarker(s);
            OpenOk(r.s, p) && Frame(s, r.s) && r.s.o == s.o && r.s.m == s.m &&
            r.s.disk == s.disk.(blocked := r.s.disk.blocked) && (s.disk.blocked || r.ok ==> r.s.disk.blocked)
  {
    hide Tracked, History, ImageOk;
    if !s.disk.blocked {
      assert Good(s.cfg, s.disk.(blocked := true), s.clk, p);
    }
  }

  /** The marker only goes once the saved state itself refuses every sealed identity. */
  lemma RemoveMarkerSafe(s: Sys, p: Promise)
    requires OpenOk(s, p) && !s.m.dirty
    ensures var r := RemoveMarker(s);
            OpenOk(r.s, p) && Frame(s, r.s) && r.s.o == s.o && r.s.m == s.m &&
            r.s.disk == s.disk.(blocked := r.s.disk.blocked) && (r.ok ==> !r.s.disk.blocked)
  {
    hide Tracked, History, ImageOk;
    if s.disk.blocked {
      assert Good(s.cfg, s.disk.(blocked := false), s.clk, p);
    }
  }

  ghost predicate Frame(s: Sys, t: Sys) {
    t.cfg == s.cfg && t.env == s.env && t.clk == s.clk && t.m.isOpen == s.m.isOpen
  }

  ghost predicate SameContext(s: Sys, t: Sys) {
    && Frame(s, t) && t.m.context == s.m.context && t.m.producer == s.m.producer && t.m.life == s.m.life
    && t.m.nextSeq == s.m.nextSeq && t.m.pending == s.m.pending && t.disk.enqueued == s.disk.enqueued
  }

  lemma ObserverIrrelevant(s: Sys, o: Observer, p: Promise)
    requires OpenOk(s, p)
    ensures OpenOk(s.(o := o), p)
  {
  }

  lemma PublishSafe(s: Sys, p: Promise)
    requires OpenOk(s, p)
    ensures var r := Publish(s);
            OpenOk(r.s, p) && Frame(s, r.s) && (r.ok ==> !r.s.m.dirty) &&
            r.s.m == s.m.(dirty := r.s.m.dirty) && (Strict(s) ==> Strict(r.s)) &&
            r.s.disk == s.disk.(state := r.s.disk.state)
  {
    hide Tracked, History, ImageOk, Good;
    WriteStateSafe(s, p);
  }

  /** Purging keeps the invariant while a revocation is being cleaned up. */
  lemma PurgeSafe(s: Sys, p: Promise)
    requires OpenOk(s, p) && s.m.cleanup
    ensures var r := Purge(s);
            OpenOk(r.s, p) && Frame(s, r.s) && BoxFrame(s, r.s) && (Strict(s) ==> Strict(r.s)) &&
            r.s.disk.enqueued == s.disk.enqueued && (!s.m.dirty ==> Saved(r.s.disk.state.value, r.s.m)) &&
            (r.ok ==> r.s.m.boxOpen && Records(r.s.disk) == [])
  {
    hide Tracked, History, ImageOk, Good, Shrinks;
    PurgeSteps(s, p);
    if s.m.boxOpen {
      MemAfterBox(s, Purge(s).s, p);
    }
  }

  lemma ReopenSafe(s: Sys, stale: bool, p: Promise)
    requires OpenOk(s, p) && s.m.cleanup
    ensures var r := OpenBox(s, stale);
            OpenOk(r.s, p) && Frame(s, r.s) && BoxFrame(s, r.s) && (Strict(s) ==> Strict(r.s)) &&
            r.s.disk.enqueued == s.disk.enqueued
  {
    hide Tracked, History, ImageOk, Good, Shrinks, OpenBox;
    OpenBoxSteps(s, stale, p);
    MemAfterBox(s, OpenBox(s, stale).s, p);
  }

  lemma CleanUpSafe(s: Sys, p: Promise)
    requires OpenOk(s, p) && s.m.cleanup && !s.m.dirty
    ensures var r := CleanUp(s);
            OpenOk(r.s, p) && SameContext(s, r.s) && (Strict(s) ==> Strict(r.s)) && !r.s.m.dirty &&
            (r.ok ==> !r.s.m.cleanup && !r.s.disk.blocked && Records(r.s.disk) == [])
  {
    hide Tracked, History, ImageOk, Good, OpenBox, Purge, RemoveMarker;
    var renewed := s.Tick().(m := s.m.(scrubPending := false));
    var reopened := if s.m.boxOpen then R(s, true) else OpenBox(renewed, s.Draw().first);
    if !s.m.boxOpen {
      assert OpenOk(renewed, p);
      ReopenSafe(renewed, s.Draw().first, p);
    }
    if reopened.ok {
      PurgeSafe(reopened.s, p);
      var purged := Purge(reopened.s);
      if purged.ok {
        RemoveMarkerSafe(purged.s, p);
      }
    }
  }

  lemma SettleSafe(s: Sys, p: Promise)
    requires OpenOk(s, p)
    ensures var r := Settle(s);
            OpenOk(r.s, p) && SameContext(s, r.s) && (Strict(s) ==> Strict(r.s)) &&
            (r.ok ==> !r.s.m.dirty && !r.s.m.cleanup && r.s.m.boxOpen) &&
            (r.ok && s.m.cleanup ==> !r.s.disk.blocked && Records(r.s.disk) == [])
  {
    hide Tracked, History, ImageOk, Good, CleanUp;
    if s.m.dirty {
      PublishSafe(s, p);
    }
    var published := if s.m.dirty then Publish(s) else R(s, true);
    if published.ok && published.s.m.cleanup {
      CleanUpSafe(published.s, p);
    }
  }

  lemma CompletePendingSafe(s: Sys, p: Promise)
    requires OpenOk(s, p) && !s.m.cleanup && s.m.pending.Some? && s.m.pending.value in s.disk.enqueued
    ensures var r := CompletePending(s);
            OpenOk(r.s, p) && KeepsContext(s, r.s) && Strict(r.s) && r.s.m.pending.None? && !r.s.m.cleanup &&
            r.s.m.life == s.m.life && (r.ok ==> !r.s.m.dirty)
  {
    hide History, Good, ArchiveOk, DistinctSequences;
    var s1 := s.(m := s.m.(nextSeq := s.m.nextSeq + 1, pending := None, pendingStarted := 0, dirty := true),
                 o := s.o.SetPending(PendingCompleted));
    forall k | 1 <= k < s1.m.nextSeq
      ensures Covers(s.disk.enqueued, s.m.producer, k)
    {
      if k == s.m.nextSeq {
        assert s.m.pending.value.sequence == k;
      }
    }
    assert TrackedImage(ImageOf(s1.m), s1.disk);
    assert OpenOk(s1, p);
    WriteStateSafe(s1, p);
  }

  lemma CoversGrows(enqueued: seq<Batch>, more: seq<Batch>, producer: Producer, k: nat)
    requires Covers(enqueued, producer, k)
    ensures Covers(enqueued + more, producer, k)
  {
    var b :| b in enqueued && b.producer == producer && b.sequence == k;
    assert b in enqueued + more;
  }

  /** The pending intent becomes durable under a sequence that nothing else ever used. */
  lemma HistoryGrows(s: Sys, p: Promise)
    requires OpenOk(s, p) && s.m.pending.Some?
    ensures History(s.disk.enqueued + [s.m.pending.value])
  {
    var b := s.m.pending.value;
    var enqueued := s.disk.enqueued;
    var more := enqueued + [b];
    assert forall c :: c in more ==> c in enqueued || c == b;
    forall c, k | c in more && 1 <= k < c.sequence
      ensures Covers(more, c.producer, k)
    {
      assert Covers(enqueued, c.producer, k);
      CoversGrows(enqueued, [b], c.producer, k);
    }
  }

  lemma TrackedGrows(live: bool, context: Identity, producer: Producer, nextSeq: nat, b: Batch, r: Record,
                     records: seq<Record>, enqueued: seq<Batch>)
    requires Tracked(live, context, producer, nextSeq, Some(b), records, enqueued)
    requires r.batch == b && b.context == context && b.producer == producer && !context.Empty()
    requires b.firstEnqueued <= r.arrival
    requires forall x :: x in records ==> x.batch.sequence != b.sequence
    ensures Tracked(live, context, producer, nextSeq, Some(b), records + [r], enqueued + [b])
  {
    assert forall x :: x in records + [r] ==> x in records || x == r;
    assert forall c :: c in enqueued + [b] ==> c in enqueued || c == b;
    forall k | 1 <= k < nextSeq
      ensures Covers(enqueued + [b], producer, k)
    {
      CoversGrows(enqueued, [b], producer, k);
    }
  }

  function EnqueuedDisk(s: Sys, b: Batch): Disk {
    s.disk.(outbox := Some(s.m.box.(records := s.m.box.records + [Record(b, s.clk)])),
            enqueued := s.disk.enqueued + [b])
  }

  lemma EnqueuedTracked(s: Sys, p: Promise)
    requires OpenOk(s, p) && s.m.pending.Some? && s.m.boxOpen
    requires CanEnqueue(s.cfg, s.m.box.records, s.m.pending.value)
    ensures TrackedImage(ImageOf(s.m), EnqueuedDisk(s, s.m.pending.value))
  {
    var b := s.m.pending.value;
    var records := s.m.box.records;
    forall x | x in records
      ensures x.batch.sequence != b.sequence
    {
      var i :| 0 <= i < |records| && records[i] == x;
      assert x.batch.producer == b.producer;
    }
    hide History, ArchiveOk, Good;
    TrackedGrows(true, s.m.context, s.m.producer, s.m.nextSeq, b, Record(b, s.clk), records, s.disk.enqueued);
  }

  lemma EnqueuedGood(s: Sys, p: Promise)
    requires OpenOk(s, p) && !s.m.dirty && s.m.pending.Some? && s.m.boxOpen
    requires CanEnqueue(s.cfg, s.m.box.records, s.m.pending.value)
    ensures Good(s.cfg, EnqueuedDisk(s, s.m.pending.value), s.clk, p)
    ensures TrackedImage(ImageOf(s.m), EnqueuedDisk(s, s.m.pending.value))
  {
    hide Tracked, History, ArchiveOk;
    HistoryGrows(s, p);
    EnqueuedTracked(s, p);
  }

  lemma EnqueueSafe(s: Sys, p: Promise)
    requires OpenOk(s, p) && !s.m.dirty && s.m.pending.Some?
    ensures var r := Enqueue(s, s.m.pending.value);
            OpenOk(r.s, p) && Frame(s, r.s) && OutboxOnly(s, r.s) &&
            (r.ok ==> s.m.pending.value in r.s.disk.enqueued) &&
            (!r.ok ==> r.s.disk == s.disk)
  {
    var b := s.m.pending.value;
    hide Tracked, History, ImageOk, Good, CanEnqueue;
    if s.m.boxOpen && CanEnqueue(s.cfg, s.m.box.records, b) && s.Draw().ok {
      EnqueuedGood(s, p);
      var t := Enqueue(s, b).s;
      assert t.disk == EnqueuedDisk(s, b) && ImageOf(t.m) == ImageOf(s.m);
      hide Enqueue, EnqueuedDisk;
      assert Safe(t, p) by { hide MemOk, ImageOf, Strict; }
      assert MemOk(t, p) by { hide Safe, Good; }
    }
  }

  /** Loss counters may take any bounded values, with an open window unless all are zero. */
  lemma CountersSafe(s: Sys, samples: nat, batches: nat, unauthorized: nat, first: nat, p: Promise)
    requires OpenOk(s, p) && first <= s.clk
    requires samples <= U64_MAX && batches <= U64_MAX && unauthorized <= U64_MAX
    requires first == 0 ==> samples == batches == unauthorized == 0
    ensures OpenOk(WithCounters(s, samples, batches, unauthorized, first), p)
  {
    hide Tracked, History, ArchiveOk, Good;
  }

  function WithCounters(s: Sys, samples: nat, batches: nat, unauthorized: nat, first: nat): Sys {
    s.(m := s.m.(droppedSamples := samples, droppedBatches := batches, notAuthorized := unauthorized,
                 lossFirst := first, dirty := true))
  }

  lemma CountersBounded(s: Sys, p: Promise)
    requires OpenOk(s, p)
    ensures s.m.notAuthorized <= U64_MAX && s.m.droppedSamples <= U64_MAX && s.m.droppedBatches <= U64_MAX
    ensures s.m.lossFirst <= s.clk && s.clk > 0
  {
  }

  lemma ExpireLossSafe(s: Sys, now: nat, p: Promise)
    requires OpenOk(s, p)
    ensures OpenOk(ExpireLoss(s, now), p)
  {
    hide OpenOk;
    CountersSafe(s, 0, 0, 0, 0, p);
  }

  /** Marked dirty, a system differs from its counted version only in its loss counters. */
  ghost predicate Counted(s: Sys, t: Sys) {
    t.(m := t.m.(dirty := true)) ==
    WithCounters(s, t.m.droppedSamples, t.m.droppedBatches, t.m.notAuthorized, t.m.lossFirst)
  }

  lemma TouchLossSafe(s: Sys, now: nat, p: Promise)
    requires OpenOk(s, p)
    ensures var t := TouchLoss(s, now);
            OpenOk(t.(m := t.m.(dirty := true)), p) && 0 < t.m.lossFirst <= s.clk && Counted(s, t) &&
            t.m.notAuthorized <= U64_MAX
  {
    hide OpenOk;
    CountersBounded(s, p);
    var t := TouchLoss(s, now);
    var expired := ExpiredAt(s.m.lossFirst, Now(s, now));
    assert 0 < t.m.lossFirst <= s.clk;
    assert t.m.notAuthorized == if expired then 0 else s.m.notAuthorized;
    assert Counted(s, t) by {
      hide ExpiredAt;
      if expired {
        assert t.m == s.m.(droppedSamples := 0, droppedBatches := 0, notAuthorized := 0, lossFirst := t.m.lossFirst,
                           dirty := true);
      } else {
        assert t.m == s.m.(lossFirst := t.m.lossFirst);
      }
    }
    CountersSafe(s, t.m.droppedSamples, t.m.droppedBatches, t.m.notAuthorized, t.m.lossFirst, p);
  }

  /** Counting a loss is safe once the state is marked dirty. */
  lemma CountDroppedSafe(s: Sys, samples: nat, batches: nat, now: nat, p: Promise)
    requires OpenOk(s, p)
    ensures var c := CountDropped(s, samples, batches, now);
            OpenOk(c.(m := c.m.(dirty := true)), p) && Counted(s, c)
  {
    hide OpenOk, TouchLoss;
    TouchLossSafe(s, now, p);
    var c := CountDropped(s, samples, batches, now);
    CountersSafe(s, c.m.droppedSamples, c.m.droppedBatches, c.m.notAuthorized, c.m.lossFirst, p);
  }

  /** Revoking forgets the pending intent; that is consistent because nothing durable carries its sequence. */
  lemma RevokingSafe(s: Sys, now: nat, p: Promise)
    requires OpenOk(s, p) && Strict(s) && s.m.pending.Some?
    ensures OpenOk(Revoking(s, now), p) && Strict(Revoking(s, now)) && Frame(s, Revoking(s, now))
    ensures Revoking(s, now).m.life == s.m.life.Stop() && Revoking(s, now).m.context == s.m.context
    ensures Revoking(s, now).m.producer == s.m.producer && Revoking(s, now).m.pending.None?
    ensures Revoking(s, now).disk == s.disk
  {
    CountDroppedSafe(s, |s.m.pending.value.samples|, 1, now, p);
    hide History, ArchiveOk, Good, DistinctSequences, CountDropped;
  }

  /** What a flush leaves alone: it never rebinds a context and never authorizes one. */
  ghost predicate KeepsContext(s: Sys, t: Sys) {
    && Frame(s, t) && t.m.context == s.m.context && t.m.producer == s.m.producer
    && (t.m.life == s.m.life || (s.m.pending.Some? && t.m.life == s.m.life.Stop()))
    && (s.m.pending.None? ==>
          t.m.pending.None? && t.m.nextSeq == s.m.nextSeq && t.disk.enqueued == s.disk.enqueued)
  }

  lemma FallbackSafe(s: Sys, p: Promise)
    requires OpenOk(s, p) && Strict(s) && s.m.cleanup
    ensures var t := RevocationFallback(s);
            OpenOk(t, p) && Strict(t) && KeepsContext(s, t) && t.m.cleanup
  {
    hide Tracked, History, ImageOk, Good, Purge, WriteMarker, Observer.Fail, Observer.PublicationFailed,
         Observer.SetWitness, Observer.SetPublication;
    var s1 := s.(o := s.o.Fail(StateFailed).PublicationFailed());
    WriteMarkerSafe(s1, p);
    var k := WriteMarker(s1);
    var s2 :=
      if k.ok then k.s.(o := k.s.o.SetWitness(RefusalMarkerConfirmed).SetPublication(MarkerConfirmed))
      else k.s.(o := k.s.o.SetWitness(WitnessUnconfirmed).Fail(RevocationUnconfirmed));
    PurgeSafe(s2, p);
  }

  lemma PersistRevocationSafe(s: Sys, now: nat, p: Promise)
    requires OpenOk(s, p) && Strict(s) && s.m.cleanup
    ensures var r := PersistRevocation(s, now);
            OpenOk(r.s, p) && Strict(r.s) && KeepsContext(s, r.s) && (r.ok ==> Settled(r.s.m))
    decreases if s.m.pending.Some? then 1 else 0, 3
  {
    hide Tracked, History, ImageOk, Good, RevocationFallback, WriteState;
    WriteStateSafe(s, p);
    var w := WriteState(s);
    if w.ok {
      FlushSafe(w.s.(o := w.s.o.SetWitness(ProtectedStateConfirmed).SetPublication(CurrentStateConfirmed)), now, p);
    } else {
      FallbackSafe(w.s, p);
    }
  }

  lemma RevokePendingSafe(s: Sys, now: nat, p: Promise)
    requires OpenOk(s, p) && Strict(s) && s.m.pending.Some?
    ensures var r := RevokePending(s, now);
            OpenOk(r.s, p) && Strict(r.s) && KeepsContext(s, r.s) && !r.ok && r.s.m.pending.None?
    decreases 1, 0
  {
    hide Tracked, History, ImageOk, Good, CountDropped;
    RevokingSafe(s, now, p);
    var revoking := Revoking(s, now);
    PersistRevocationSafe(revoking.(o := revoking.o.(stop := None)), now, p);
  }

  lemma EnqueuePendingSafe(s: Sys, p: Promise)
    requires OpenOk(s, p) && Strict(s) && !s.m.dirty && !s.m.cleanup && s.m.pending.Some?
    ensures var e := Enqueue(s, s.m.pending.value);
            (!e.ok ==> OpenOk(e.s, p) && Strict(e.s) && SameContext(s, e.s)) &&
            (e.ok ==>
               var r := CompletePending(e.s);
               OpenOk(r.s, p) && KeepsContext(s, r.s) && Strict(r.s) && r.s.m.pending.None? && !r.s.m.cleanup &&
               r.s.m.life == s.m.life && (r.ok ==> !r.s.m.dirty))
  {
    hide Tracked, History, ImageOk, Good, Enqueue, CompletePending, FindBatch;
    EnqueueSafe(s, p);
    var e := Enqueue(s, s.m.pending.value);
    if e.ok {
      CompletePendingSafe(e.s, p);
    }
  }

  lemma FinishPendingSafe(s: Sys, now: nat, p: Promise)
    requires OpenOk(s, p) && !s.m.dirty && !s.m.cleanup
    ensures var r := FinishPending(s, now);
            OpenOk(r.s, p) && (Strict(s) ==> Strict(r.s)) && KeepsContext(s, r.s) &&
            (r.ok ==> Settled(r.s.m) && r.s.m.life == s.m.life && Strict(r.s))
    decreases if s.m.pending.Some? then 1 else 0, 1
  {
    hide OpenOk, Enqueue, CompletePending, RevokePending, LossOf;
    if s.m.pending.None? {
      NoPendingIsStrict(s, p);
    } else {
      var b := s.m.pending.value;
      var records := s.m.box.records;
      var i := FindBatch(records, b.producer, b.sequence);
      if i < |records| {
        FoundIsPending(s, i, p);
        CompletePendingSafe(s, p);
      } else {
        NotFoundIsStrict(s, p);
        if LossOf(s.m.box.losses, b.context.sessionId).expired != 0 {
          var o := s.o.SetPending(RevokedAgeUncertain);
          ObserverIrrelevant(s, o, p);
          RevokePendingSafe(s.(o := o), Now(s, now), p);
        } else {
          EnqueuePendingSafe(s, p);
          var e := Enqueue(s, b);
          if !e.ok {
            ObserverIrrelevant(e.s, e.s.o.FailFlush(EnqueueUnfinished), p);
          }
        }
      }
    }
  }

  lemma NoPendingIsStrict(s: Sys, p: Promise)
    requires OpenOk(s, p) && s.m.pending.None?
    ensures Strict(s)
  {
  }

  lemma FoundIsPending(s: Sys, i: nat, p: Promise)
    requires OpenOk(s, p) && s.m.pending.Some? && i < |s.m.box.records|
    requires s.m.box.records[i].batch.sequence == s.m.pending.value.sequence
    ensures s.m.box.records[i].batch == s.m.pending.value && s.m.pending.value in s.disk.enqueued
  {
    assert s.m.box.records[i] in Records(s.disk);
  }

  lemma NotFoundIsStrict(s: Sys, p: Promise)
    requires OpenOk(s, p) && s.m.pending.Some? && !s.m.cleanup
    requires FindBatch(s.m.box.records, s.m.pending.value.producer, s.m.pending.value.sequence) == |s.m.box.records|
    ensures Strict(s)
  {
    var records := s.m.box.records;
    forall r | r in records
      ensures r.batch.sequence < s.m.nextSeq
    {
      var i :| 0 <= i < |records| && records[i] == r;
    }
  }

  lemma FlushSafe(s: Sys, now: nat, p: Promise)
    requires OpenOk(s, p)
    requires Strict(s) || !PendingExpired(s.m, Now(s, now))
    ensures var r := Flush(s, now);
            OpenOk(r.s, p) && (Strict(s) ==> Strict(r.s)) && KeepsContext(s, r.s) &&
            (r.ok ==> Settled(r.s.m) && r.s.m.life == s.m.life && Strict(r.s))
    decreases if s.m.pending.Some? then 1 else 0, 2
  {
    hide OpenOk, Settle, FinishPending, RevokePending;
    var t := Now(s, now);
    ExpireLossSafe(s, t, p);
    var s1 := ExpireLoss(s, t);
    if PendingExpired(s1.m, t) {
      var o := s1.o.SetPending(RevokedExpired);
      ObserverIrrelevant(s1, o, p);
      RevokePendingSafe(s1.(o := o), t, p);
    } else {
      SettleSafe(s1, p);
      var settled := Settle(s1);
      if settled.ok {
        FinishPendingSafe(settled.s, t, p);
      }
    }
  }
}
