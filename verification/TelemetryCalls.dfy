/** Every public call keeps the invariant, and what its answers promise. */
module TelemetryCalls {
  import opened Bytes
  import opened Lifecycle
  import opened Outcomes
  import opened TelemetryModel
  import opened TelemetryInvariant
  import opened TelemetrySafety

  // ---- reloading ----

  ghost function SavedLife(img: Image): Life {
    Life(img.context, img.state, img.revoked)
  }

  /** A good image always loads, at any later time, to the same fields with an enabled context suspended. */
  lemma GoodImageLoads(cfg: Config, img: Image, clk: nat, later: nat, m: Mem)
    requires ImageOk(cfg, img, clk) && clk <= later
    ensures LoadImage(cfg, img, later, m) ==
            Some(m.(life := SavedLife(img).Disconnect(), context := img.context, producer := img.producer,
                    nextSeq := img.nextSeq, generations := img.generations, droppedSamples := img.droppedSamples,
                    droppedBatches := img.droppedBatches, notAuthorized := img.notAuthorized,
                    lossFirst := img.lossFirst, pending := img.pending, pendingStarted := img.pendingStarted,
                    dirty := false))
  {
    var saved := SavedLife(img);
    forall id | id in saved.revoked
      ensures id.Bound()
    {
      ValidIsBound(id);
    }
    ReplayRebuilds(saved);
    var l := Replay(FRESH, img.revoked).value;
    assert !l.SetContext(img.context).IsRevoked(img.context);
  }

  ghost predicate MemoryReloaded(m: Mem, reloaded: Mem) {
    && reloaded.life == m.life.Disconnect() && reloaded.context == m.context && reloaded.producer == m.producer
    && reloaded.nextSeq == m.nextSeq && reloaded.generations == m.generations
    && reloaded.droppedSamples == m.droppedSamples && reloaded.droppedBatches == m.droppedBatches
    && reloaded.notAuthorized == m.notAuthorized && reloaded.lossFirst == m.lossFirst
    && reloaded.pending == m.pending && reloaded.pendingStarted == m.pendingStarted && !reloaded.dirty
  }

  /** Whenever nothing is dirty, the state on disk reloads to the state in memory, an enabled context suspended. */
  lemma CleanStateReloads(s: Sys, p: Promise, later: nat, m: Mem)
    requires OpenOk(s, p) && !s.m.dirty && s.clk <= later
    ensures s.disk.state.Some?
    ensures LoadImage(s.cfg, s.disk.state.value, later, m).Some?
    ensures MemoryReloaded(s.m, LoadImage(s.cfg, s.disk.state.value, later, m).value)
  {
    hide Tracked, History, ArchiveOk, LoadImage;
    GoodImageLoads(s.cfg, s.disk.state.value, s.clk, later, m);
  }

  // ---- time and the start of a call ----

  function Begin(s: Sys, clk: nat): Sys {
    s.(clk := clk, journal := [], o := UNOBSERVED)
  }

  lemma GoodLater(cfg: Config, d: Disk, clk: nat, later: nat, p: Promise)
    requires Good(cfg, d, clk, p) && clk <= later
    ensures Good(cfg, d, later, p.(durable := d.enqueued, clk := later))
  {
    hide Tracked, History, ArchiveOk;
  }

  lemma BeginSafe(s: Sys, clk: nat, p: Promise)
    requires Inv(s, p) && s.clk <= clk
    ensures Inv(Begin(s, clk), p.(durable := s.disk.enqueued, clk := clk))
  {
    hide Tracked, History, ArchiveOk, Good;
    GoodLater(s.cfg, s.disk, s.clk, clk, p);
  }

  // ---- closing and opening ----

  lemma ClosedSafe(s: Sys, p: Promise)
    requires Safe(s, p)
    ensures Inv(Shut(s), p)
  {
    hide Good;
  }

  lemma CloseLockedSafe(s: Sys, p: Promise)
    requires Inv(s, p)
    ensures Inv(CloseLocked(s).s, p)
    ensures CloseLocked(s).ok ==> !CloseLocked(s).s.m.isOpen
    ensures CloseLocked(s).s.clk == s.clk && CloseLocked(s).s.cfg == s.cfg
  {
    hide Good, MemOk, Flush;
    if s.m.isOpen {
      FlushSafe(s, 0, p);
    }
  }

  /** Memory that was just loaded from, or just written to, the saved state. */
  ghost predicate Loaded(s: Sys) {
    && s.disk.state.Some? && !s.disk.blocked && !s.m.dirty
    && Saved(s.disk.state.value, s.m) && s.m.life.context == s.m.context && s.m.life.state != Enabled
  }

  /** Opening the outbox over a loaded state satisfies the whole invariant but for an unfinished pending batch. */
  lemma ReadySafe(s: Sys, t: Sys, p: Promise)
    requires Safe(s, p) && Loaded(s) && BoxSteps(s, t, p)
    requires t.m.boxOpen && t.disk.outbox == Some(t.m.box) && !t.disk.scrubMarker
    ensures OpenOk(t.(m := t.m.(isOpen := true, cleanup := t.m.life.state == Revoked)), p)
  {
    hide History, ArchiveOk, DistinctSequences;
    var img := s.disk.state.value;
    TrackedShrinks(img.state != Revoked, img.context, img.producer, img.nextSeq, img.pending, Records(t.disk),
                   Records(s.disk), s.disk.enqueued);
    hide Tracked;
  }

  /** The consistency check of the open never fails. */
  lemma ReadyConsistent(s: Sys, p: Promise)
    requires OpenOk(s, p) && s.m.boxOpen
    ensures Consistent(s.m)
  {
    hide Good, ImageOk;
    forall i | 0 <= i < |s.m.box.records|
      ensures var r := s.m.box.records[i];
              r.batch.context == s.m.context && r.batch.producer == s.m.producer &&
              (r.batch.sequence < s.m.nextSeq ||
               (s.m.pending.Some? && r.batch.sequence == s.m.pending.value.sequence))
    {
      assert s.m.box.records[i] in Records(s.disk);
    }
  }

  /** A pending batch already in the outbox has not expired if the outbox kept it. */
  lemma KeptPendingIsYoung(s: Sys, p: Promise)
    requires OpenOk(s, p) && s.m.boxOpen
    requires forall r :: r in s.m.box.records ==> !RecordExpired(r, s.clk)
    ensures Strict(s) || !PendingExpired(s.m, s.clk)
  {
    hide Good, ArchiveOk;
    if !Strict(s) {
      var r :| r in Records(s.disk) && r.batch.sequence >= s.m.nextSeq;
      assert s.m.pending == Some(r.batch);
    }
  }

  lemma OpenLoadedSafe(s: Sys, stale: bool, p: Promise)
    requires Safe(s, p) && Loaded(s)
    ensures Inv(OpenLoaded(s, stale).s, p)
    ensures OpenLoaded(s, stale).result !in {StateCorrupt, StateMissing, Inconsistent}
    ensures OpenLoaded(s, stale).result == Opened ==>
              OpenLoaded(s, stale).s.m.isOpen && Settled(OpenLoaded(s, stale).s.m)
  {
    hide Good, MemOk, OpenBox, Flush, RevokePending, Strict, RecordExpired, PendingExpired, Consistent;
    OpenBoxSteps(s, stale, p);
    var b := OpenBox(s, stale);
    if b.ok {
      ReadySafe(s, b.s, p);
      var ready := b.s.(m := b.s.m.(isOpen := true, cleanup := b.s.m.life.state == Revoked));
      ReadyConsistent(ready, p);
      if s.m.pending.Some? && stale {
        EmptyIsStrict(ready);
        RevokePendingSafe(ready, ready.clk, p);
        ClosedSafe(RevokePending(ready, s.clk).s, p);
      } else {
        KeptPendingIsYoung(ready, p);
        FlushSafe(ready, 0, p);
        ClosedSafe(Flush(ready, 0).s, p);
      }
    }
  }

  lemma EmptyIsStrict(s: Sys)
    requires Records(s.disk) == []
    ensures Strict(s)
  {
  }

  lemma InitialStateSafe(s: Sys, initial: Sys, p: Promise)
    requires Safe(s, p) && s.disk.state.None? && s.disk.outbox.None? && !s.disk.blocked
    requires initial == s.(m := initial.m) && initial.m.isOpen && ImageOf(initial.m) == ImageOf(BOOT)
    requires initial.m.life == FRESH
    ensures var w := WriteState(initial);
            Safe(w.s, p) && (w.ok ==> Loaded(w.s))
  {
    hide History;
    if initial.Draw().ok {
      assert Good(s.cfg, s.disk.(state := Some(ImageOf(BOOT))), s.clk, p);
    }
  }

  lemma OpenFreshSafe(s: Sys, stale: bool, p: Promise)
    requires Safe(s, p) && s.disk.state.None? && s.disk.outbox.None? && !s.disk.blocked
    ensures Inv(OpenFresh(s, stale).s, p)
    ensures OpenFresh(s, stale).result !in {StateCorrupt, StateMissing, Inconsistent}
    ensures OpenFresh(s, stale).result == Opened ==>
              OpenFresh(s, stale).s.m.isOpen && Settled(OpenFresh(s, stale).s.m)
  {
    hide Safe, Loaded, OpenLoaded, WriteState, MemOk, Strict;
    var initial := s.(m := BOOT.(pathKnown := true, isOpen := true, scrubPending := s.m.scrubPending,
                                 box := s.m.box, dirty := s.m.dirty));
    InitialStateSafe(s, initial, p);
    var w := WriteState(initial);
    if w.ok {
      OpenLoadedSafe(w.s, stale, p);
    } else {
      ClosedSafe(w.s, p);
    }
  }

  lemma OpenSavedSafe(s: Sys, stale: bool, p: Promise)
    requires Safe(s, p) && s.disk.state.Some? && !s.disk.blocked && !s.m.isOpen
    ensures var o := OpenSaved(s, s.disk.state.value, stale);
            Inv(o.s, p) && o.result !in {StateCorrupt, StateMissing, Inconsistent} &&
            (o.result == Opened ==> o.s.m.isOpen && Settled(o.s.m))
  {
    hide Tracked, History, ArchiveOk, OpenLoaded, MemOk, Strict, LoadImage;
    var img := s.disk.state.value;
    GoodImageLoads(s.cfg, img, s.clk, s.clk, s.m);
    var loaded := s.(m := LoadImage(s.cfg, img, s.clk, s.m).value);
    assert Loaded(loaded);
    OpenLoadedSafe(loaded, stale, p);
  }

  /** No reachable disk is ever refused as corrupt, unexplained or inconsistent. */
  lemma OpenSafe(s: Sys, stale: bool, p: Promise)
    requires Inv(s, p)
    ensures Inv(Open(s, stale).s, p)
    ensures Open(s, stale).result !in {StateCorrupt, StateMissing, Inconsistent}
    ensures Open(s, stale).result == Opened ==> Open(s, stale).s.m.isOpen && Settled(Open(s, stale).s.m)
  {
    hide Good, MemOk, Strict, OpenFresh, OpenSaved, CloseLocked;
    CloseLockedSafe(s, p);
    var c := CloseLocked(s);
    if c.ok {
      var s1 := c.s.(m := c.s.m.(pathKnown := true));
      assert Inv(s1, p);
      if !s1.disk.blocked && s1.disk.state.Some? {
        OpenSavedSafe(s1, stale, p);
      } else if !s1.disk.blocked {
        assert s1.disk.outbox.None? by { UnexplainedOutbox(s1, p); }
        OpenFreshSafe(s1, stale, p);
      }
    }
  }

  lemma UnexplainedOutbox(s: Sys, p: Promise)
    requires Safe(s, p) && s.disk.state.None? && !s.disk.blocked
    ensures s.disk.outbox.None?
  {
  }

  // ---- enabling ----

  ghost predicate Between(s: Sys, p: Promise) {
    OpenOk(s, p) && Strict(s)
  }

  /** Granting authorization publishes it, or falls back to suspended. */
  lemma AuthorizeSafe(s: Sys, id: Identity, p: Promise)
    requires Between(s.(m := s.m.(dirty := true)), p) && !s.m.life.IsRevoked(id)
    ensures Between(Authorize(s, id).s, p)
    ensures Authorize(s, id).ok ==> !Authorize(s, id).s.m.dirty && id !in p.sealed
  {
    hide Tracked, History, ArchiveOk, Good;
    var marked := s.(m := s.m.(life := s.m.life.Enable(id), dirty := true));
    assert Between(marked, p);
    WriteStateSafe(marked, p);
    hide MemOk, Safe, Strict;
    WriteIgnoresDirty(s.(m := s.m.(life := s.m.life.Enable(id))));
  }

  /** Whether memory counts as dirty makes no difference to a successful write. */
  lemma WriteIgnoresDirty(s: Sys)
    ensures var marked := s.(m := s.m.(dirty := true));
            var w := WriteState(s);
            && w.ok == WriteState(marked).ok
            && (s.m.isOpen && w.ok ==> w == WriteState(marked))
            && (!w.ok ==> w.s.(m := w.s.m.(dirty := true)) == WriteState(marked).s)
  {
  }

  /** A new context starts only over an empty outbox, with a producer no durable batch ever used. */
  lemma NewContextSafe(s: Sys, id: Identity, producer: Producer, p: Promise)
    requires Between(s, p) && Settled(s.m)
    requires s.m.context.Empty() || s.m.life.state == Revoked
    requires id.Valid() && !s.m.life.IsRevoked(id) && s.m.life.CanSetContext(id)
    requires HasNonzero(producer) && forall b :: b in s.disk.enqueued ==> b.producer != producer
    ensures Between(NewContext(s, id, producer).(m := NewContext(s, id, producer).m.(dirty := true)), p)
    ensures !NewContext(s, id, producer).m.life.IsRevoked(id)
  {
    hide History, Good;
    assert Records(s.disk) == [];
    assert s.m.life.state == Revoked ==> s.m.life.context.Valid();
    NewArchive(s.m.life, id);
    hide ArchiveOk;
  }

  /** Rebinding a revoked lifecycle archives it and forgets nothing. */
  lemma NewArchive(life: Life, id: Identity)
    requires id.Valid() && !life.IsRevoked(id) && life.CanSetContext(id)
    requires ArchiveOk(life.revoked, life.context) && (life.state == Revoked ==> life.context.Valid())
    ensures ArchiveOk(life.SetContext(id).revoked, id) && !life.SetContext(id).IsRevoked(id)
    ensures forall x :: life.IsRevoked(x) <==> x in life.SetContext(id).revoked
  {
    ValidIsBound(id);
    if life.state == Revoked {
      ValidIsBound(life.context);
      assert life.SetContext(id).revoked == life.revoked + [life.context];
    }
    hide Identity.Valid, Identity.Bound;
    var archive := life.SetContext(id).revoked;
    assert forall x :: x in archive ==> life.IsRevoked(x);
    assert forall x :: life.IsRevoked(x) ==> x in archive;
  }

  lemma EnableSafe(s: Sys, id: Identity, candidate: Option<Producer>, p: Promise)
    requires Inv(s, p)
    requires candidate.Some? ==> forall b :: b in s.disk.enqueued ==> b.producer != candidate.value
    ensures Inv(ServerEnable(s, id, candidate).s, p) && (s.m.isOpen ==> ServerEnable(s, id, candidate).s.m.isOpen)
    ensures ServerEnable(s, id, candidate).ok ==> id !in p.sealed
  {
    hide MemOk, Strict, Good, Flush, Authorize;
    if s.m.isOpen && id.Valid() {
      FlushSafe(s, 0, p);
      var f := Flush(s, 0);
      if f.ok && !f.s.m.life.IsRevoked(id) {
        if !f.s.m.context.Empty() && f.s.m.life.state != Revoked {
          if f.s.m.context == id {
            DirtySafe(f.s, p);
            AuthorizeSafe(f.s, id, p);
          }
        } else if candidate.Some? && HasNonzero(candidate.value) && f.s.m.life.CanSetContext(id) {
          NoPendingWithoutContext(s, p);
          NewContextSafe(f.s, id, candidate.value, p);
          AuthorizeSafe(NewContext(f.s, id, candidate.value), id, p);
        }
      }
    }
  }

  lemma DirtySafe(s: Sys, p: Promise)
    requires Between(s, p)
    ensures Between(s.(m := s.m.(dirty := true)), p)
  {
    hide Tracked, History, ImageOk, Good;
  }

  lemma NoPendingWithoutContext(s: Sys, p: Promise)
    requires OpenOk(s, p) && (s.m.context.Empty() || s.m.life.state == Revoked)
    ensures s.m.pending.None?
  {
  }

  // ---- leaving ----

  lemma DisconnectSafe(s: Sys, p: Promise)
    requires Inv(s, p)
    ensures Inv(ServerDisconnect(s), p) && (s.m.isOpen ==> ServerDisconnect(s).m.isOpen)
  {
    hide Tracked, History, ArchiveOk, Good, Flush;
    if s.m.isOpen {
      var s1 := s.(m := s.m.(life := s.m.life.Disconnect(), dirty := true),
                   o := UNOBSERVED.(flush := Some(EnterFlush(s.m))));
      FlushSafe(s1, 0, p);
    }
  }

  lemma CloseSafe(s: Sys, p: Promise)
    requires Inv(s, p)
    ensures Inv(Close(s), p)
  {
    hide Tracked, History, ImageOk, Good, CloseLocked;
    CloseLockedSafe(s.(o := UNOBSERVED.(flush := Some(EnterFlush(s.m)))), p);
  }

  // ---- revoking ----

  function Stopping(s: Sys): Sys {
    s.(m := s.m.(life := s.m.life.Stop(), pending := None, pendingStarted := 0, cleanup := true, dirty := true),
       o := UNOBSERVED.(stop := Some(STOP_OUTCOME.(
         applicability := Applicable, cleanup := CleanupPending,
         memory := if s.m.life.state == Revoked then AlreadyRevoked else RevokedNow))))
  }

  lemma StoppingSafe(s: Sys, p: Promise)
    requires Between(s, p) && s.m.context.Bound()
    ensures Between(Stopping(s), p)
  {
    hide History, ArchiveOk, Good, DistinctSequences;
  }

  lemma StopSafe(s: Sys, p: Promise)
    requires Inv(s, p)
    ensures Inv(ExplicitStop(s), p) && (s.m.isOpen ==> ExplicitStop(s).m.isOpen)
  {
    hide MemOk, Good, PersistRevocation;
    if s.m.isOpen && !s.m.context.Bound() {
      ObserverIrrelevant(s, ExplicitStop(s).o, p);
    } else if s.m.isOpen {
      StoppingSafe(s, p);
      PersistRevocationSafe(Stopping(s), s.clk, p);
    }
  }

  // ---- samples ----

  lemma DropRemainingSafe(s: Sys, samples: nat, now: nat, p: Promise)
    requires Between(s, p)
    ensures Between(DropRemaining(s, samples, now), p)
    ensures KeepsContext(s, DropRemaining(s, samples, now))
  {
    hide OpenOk, CountDropped, Flush;
    CountDroppedSafe(s, samples, Ceiling(samples), now, p);
    var c := CountDropped(s, samples, Ceiling(samples), now);
    FlushSafe(c.(m := c.m.(dirty := true)), now, p);
  }

  lemma DropTailSafe(s: Sys, samples: nat, now: nat, p: Promise)
    requires Between(s, p)
    ensures Between(DropTail(s, samples, now), p)
  {
    hide OpenOk, CountDropped, WriteState;
    if samples != 0 {
      CountDroppedSafe(s, samples, Ceiling(samples), now, p);
      var c := CountDropped(s, samples, Ceiling(samples), now);
      WriteStateSafe(c.(m := c.m.(dirty := true)), p);
    }
  }

  lemma StageSafe(s: Sys, b: Batch, now: nat, p: Promise)
    requires Between(s, p) && Settled(s.m) && s.m.life.state == Enabled && now > 0
    requires b.samples != [] && b == NextBatch(s, b.samples, now) && CanStage(s, b)
    ensures Between(Stage(s, b, now), p)
  {
    NextIsUnspent(s, b, p);
    hide History, ArchiveOk, Good, DistinctSequences;
  }

  /** The next sequence of a live context names no batch that was ever durable. */
  lemma NextIsUnspent(s: Sys, b: Batch, p: Promise)
    requires OpenOk(s, p) && s.m.pending.None? && s.m.life.state != Revoked
    requires b.producer == s.m.producer && b.sequence == s.m.nextSeq
    ensures b !in p.spent
  {
    hide History, ImageOk, DistinctSequences;
    assert forall x :: x in p.durable ==> x in s.disk.enqueued;
  }

  lemma {:induction false} IngestLoopSafe(s: Sys, samples: seq<Sample>, now: nat, p: Promise)
    requires Between(s, p) && Settled(s.m) && s.m.life.state == Enabled && now > 0
    ensures Between(IngestLoop(s, samples, now).s, p)
    decreases |samples|
  {
    hide OpenOk, Strict, DropRemaining, DropTail, Flush, CanStage;
    if samples != [] {
      var n := Min(|samples|, BATCH_LIMIT);
      var b := NextBatch(s, samples[..n], now);
      if !CanStage(s, b) {
        DropRemainingSafe(s, |samples|, now, p);
      } else {
        StageSafe(s, b, now, p);
        FlushSafe(Stage(s, b, now), now, p);
        var f := Flush(Stage(s, b, now), now);
        if f.ok {
          IngestLoopSafe(f.s, samples[n..], now, p);
        } else {
          DropTailSafe(f.s, |samples| - n, now, p);
        }
      }
    }
  }

  lemma IngestSafe(s: Sys, samples: seq<Sample>, now: nat, p: Promise)
    requires Inv(s, p)
    ensures Inv(Ingest(s, samples, now).s, p) && (s.m.isOpen ==> Ingest(s, samples, now).s.m.isOpen)
  {
    hide MemOk, Strict, DropRemaining, Flush, IngestLoop, TouchLoss, Good;
    if s.m.isOpen && samples != [] {
      if s.m.life.state != Enabled {
        TouchLossSafe(s, now, p);
        var t := TouchLoss(s, now);
        CountersBounded(t.(m := t.m.(dirty := true)), p);
        CountersSafe(t.(m := t.m.(dirty := true)), t.m.droppedSamples, t.m.droppedBatches,
                     AddSaturated(t.m.notAuthorized, |samples|), t.m.lossFirst, p);
        var counted := t.(m := t.m.(notAuthorized := AddSaturated(t.m.notAuthorized, |samples|), dirty := true));
        StrictOnDisk(s, counted);
        FlushSafe(counted, now, p);
      } else {
        FlushSafe(s, Now(s, now), p);
        var f := Flush(s, Now(s, now));
        if f.ok {
          IngestLoopSafe(f.s, samples, Now(s, now), p);
        } else {
          DropRemainingSafe(f.s, |samples|, Now(s, now), p);
        }
      }
    }
  }

  lemma StrictOnDisk(s: Sys, t: Sys)
    requires Strict(s) && t.disk == s.disk && t.m.nextSeq == s.m.nextSeq
    ensures Strict(t)
  {
  }

  // ---- acknowledging, sending, maintenance ----

  lemma AcknowledgeSafe(s: Sys, a: Ack, now: nat, p: Promise)
    requires Between(s, p) && s.m.boxOpen
    ensures Between(Acknowledge(s, a, now).s, p)
  {
    hide MemOk, Good, Shrinks, WriteBox, FindAcked, TerminalLoss;
    var records := s.m.box.records;
    var i := FindAcked(s.cfg, records, a);
    assert s.disk.outbox == Some(s.m.box) && s.disk.state.Some? && !s.disk.scrubMarker by { BoxIsDurable(s, p); }
    if i < |records| && s.cfg.hash(records[i].batch) == a.hash {
      NoShrink(records);
      RemovalShrinks(records, i);
      var retire := a.status == Accepted || a.status == Duplicate;
      var losses := if retire then s.m.box.losses else TerminalLoss(s.m.box.losses, a, Min(now, s.clk));
      var box := if a.status == Unavailable then s.m.box else Box(records[..i] + records[i + 1..], losses);
      WriteBoxSteps(s, box, p);
      var w := WriteBox(s, box, s.disk.enqueued);
      OpenBoxStays(s, box);
      MemAfterBox(s, w.s, p);
    }
  }

  lemma OpenBoxStays(s: Sys, box: Box)
    ensures WriteBox(s, box, s.disk.enqueued).s.m.boxOpen == s.m.boxOpen
  {
  }

  lemma BoxIsDurable(s: Sys, p: Promise)
    requires OpenOk(s, p) && s.m.boxOpen
    ensures s.disk.outbox == Some(s.m.box) && s.disk.state.Some? && !s.disk.scrubMarker
  {
  }

  lemma SettledBoxIsOpen(s: Sys, p: Promise)
    requires OpenOk(s, p) && !s.m.cleanup
    ensures s.m.boxOpen
  {
  }

  predicate Effective(result: AckResult) {
    result == Retired || result == DeletedTerminal
  }

  /** The batch an effective ACK takes out of the outbox. */
  function AckedBatch(s: Sys, a: Ack, now: nat): Batch
    requires Effective(ServerAck(s, a, now).result)
  {
    var f := Flush(s, now).s;
    f.m.box.records[FindAcked(f.cfg, f.m.box.records, a)].batch
  }

  lemma ServerAckSafe(s: Sys, a: Ack, now: nat, p: Promise)
    requires Inv(s, p)
    ensures Inv(ServerAck(s, a, now).s, p) && (s.m.isOpen ==> ServerAck(s, a, now).s.m.isOpen)
    ensures var r := ServerAck(s, a, now);
            Effective(r.result) ==> r.s.m.isOpen && Settled(r.s.m) && AckedBatch(s, a, now) in r.s.disk.enqueued
  {
    hide MemOk, Strict, Good, Flush, Acknowledge;
    if s.m.isOpen {
      FlushSafe(s, now, p);
      var f := Flush(s, now);
      if f.ok {
        SettledBoxIsOpen(f.s, p);
        AcknowledgeSafe(f.s, a, Now(s, now), p);
        BoxIsDurable(f.s, p);
        AcknowledgeFrame(f.s, a, Now(s, now));
        RecordsAreEnqueued(f.s, p);
        assert f.s.m.box.records == Records(f.s.disk);
      }
    }
  }

  lemma AcknowledgeFrame(s: Sys, a: Ack, now: nat)
    ensures var r := Acknowledge(s, a, now);
            BoxFrame(s, r.s) && (Effective(r.result) ==> FindAcked(s.cfg, s.m.box.records, a) < |s.m.box.records|)
  {
  }

  lemma RecordsAreEnqueued(s: Sys, p: Promise)
    requires OpenOk(s, p)
    ensures forall i :: 0 <= i < |Records(s.disk)| ==> Records(s.disk)[i].batch in s.disk.enqueued
  {
    hide Good, ArchiveOk;
    assert forall i :: 0 <= i < |Records(s.disk)| ==> Records(s.disk)[i] in Records(s.disk);
  }

  /** With nothing left to publish, a durable batch may be promised never to become durable again. */
  lemma SettledSpends(s: Sys, b: Batch, p: Promise)
    requires Inv(s, p) && s.m.isOpen && Settled(s.m) && b in s.disk.enqueued
    ensures Inv(s.(journal := []), p.(durable := s.disk.enqueued, spent := p.spent + {b}))
  {
    hide Tracked, History, ImageOk;
  }

  lemma MaintenanceSafe(s: Sys, now: nat, p: Promise)
    requires Between(s, p)
    ensures var r := Maintenance(s, now);
            Between(r.s, p) && (r.ok ==> r.s.m.boxOpen && Settled(r.s.m))
  {
    hide MemOk, Strict, Good, Flush, Prune, Shrinks;
    FlushSafe(s, Now(s, now), p);
    var f := Flush(s, Now(s, now));
    if f.ok {
      SettledBoxIsOpen(f.s, p);
      BoxIsDurable(f.s, p);
      PruneSteps(f.s, Now(s, now), p);
      MemAfterBox(f.s, Prune(f.s, Now(s, now)).s, p);
    }
  }

  /** A batch offered for sending is durable and belongs to an authorized context. */
  lemma NextToSendSafe(s: Sys, now: nat, pick: nat, p: Promise)
    requires Inv(s, p)
    ensures var n := NextToSend(s, now, pick);
            Inv(n.s, p) && (s.m.isOpen ==> n.s.m.isOpen) &&
            (n.batch.Some? ==> n.batch.value.context !in p.sealed && n.batch.value in n.s.disk.enqueued &&
                               n.s.m.isOpen && Settled(n.s.m))
  {
    if s.m.isOpen {
      MaintenanceSafe(s, now, p);
      hide Good, Maintenance, ArchiveOk;
      var r := Maintenance(s, now);
      var records := r.s.m.box.records;
      if r.ok && r.s.m.life.state == Enabled && pick < |records| {
        assert records[pick] in Records(r.s.disk);
      }
    }
  }

  lemma MaintainSafe(s: Sys, now: nat, p: Promise)
    requires Inv(s, p)
    ensures Inv(Maintain(s, now).s, p) && (s.m.isOpen ==> Maintain(s, now).s.m.isOpen)
  {
    if s.m.isOpen {
      hide Good, MemOk, Strict, Maintenance;
      MaintenanceSafe(s, now, p);
    } else if s.m.pathKnown && s.disk.blocked {
      hide Tracked, ImageOk, History;
      var o := RemoveOutboxFile(s);
      BlockedScrubGood(s, p);
      if o.ok && o.s.disk.state.Some? && o.s.Draw().ok {
        assert Good(s.cfg, o.s.disk.(state := None), s.clk, p);
      }
    }
  }

  lemma BlockedScrubGood(s: Sys, p: Promise)
    requires Safe(s, p) && s.disk.blocked
    ensures Safe(RemoveOutboxFile(s).s, p)
  {
    if s.disk.state.Some? {
      RemoveOutboxFileSteps(s, p);
    }
  }
}
