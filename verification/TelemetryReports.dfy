/** The reporters' dispositions, and why "complete" is true of the disk. */
module TelemetryReports {
  import opened Bytes
  import opened Lifecycle
  import opened Outcomes
  import opened TelemetryModel
  import opened TelemetryInvariant
  import opened TelemetrySafety
  import opened TelemetryCalls

  datatype Disposition = ReportComplete | NoApplicableWork | ObservedFailure | OutcomeUnavailable

  datatype Dispatch = NotConfigured | LegacyCallback | OutcomeCallback | UnknownDispatch

  /** The disposition of a dispatch whose own outcome, if any, would be classified as `known`. */
  function Dispatched(d: Dispatch, hasOutcome: bool, known: Disposition): Disposition {
    match d
    case NotConfigured => OutcomeUnavailable
    case LegacyCallback => OutcomeUnavailable
    case OutcomeCallback => if hasOutcome then known else OutcomeUnavailable
    case UnknownDispatch => ObservedFailure
  }

  function ClassifyStop(o: StopOutcome): Disposition {
    if o.applicability == Applicable && (o.memory == RevokedNow || o.memory == AlreadyRevoked) &&
       o.durable == ProtectedStateConfirmed && o.cleanup == CleanupComplete && o.error == NoFailure
    then ReportComplete
    else if (o.applicability == NotOpen || o.applicability == NotBound) && o.memory == NotApplicable &&
            o.durable == WitnessNotAttempted && o.cleanup == CleanupNotNeeded && o.error == NoFailure
    then NoApplicableWork
    else ObservedFailure
  }

  predicate ActiveBefore(o: FlushOutcome) {
    o.before == ObservedOpen(Enabled) || o.before == ObservedOpen(Suspended)
  }

  /** Shared by the disconnect and the shutdown reporter. */
  function ClassifyDisconnect(o: FlushOutcome): Disposition {
    if o.failure != NoFailure then ObservedFailure
    else if o.pending == PendingNotPresent && o.cleanup == CleanupNotNeeded &&
            ((o.before == o.after == ObservedClosed && o.publication == PublicationNotAttempted) ||
             (o.before == o.after == ObservedOpen(Disabled) && o.publication == CurrentStateConfirmed))
    then NoApplicableWork
    else if o.publication != CurrentStateConfirmed then ObservedFailure
    else if (ActiveBefore(o) && o.after == ObservedOpen(Suspended) &&
             (o.pending == PendingNotPresent || o.pending == PendingCompleted) && o.cleanup == CleanupNotNeeded) ||
            (o.before == o.after == ObservedOpen(Revoked) && o.pending == PendingNotPresent &&
             (o.cleanup == CleanupNotNeeded || o.cleanup == CleanupComplete)) ||
            (ActiveBefore(o) && o.after == ObservedOpen(Revoked) &&
             (o.pending == RevokedExpired || o.pending == RevokedAgeUncertain) && o.cleanup == CleanupComplete)
    then ReportComplete
    else ObservedFailure
  }

  function ClassifyClose(o: FlushOutcome): Disposition {
    if o.failure != NoFailure then ObservedFailure
    else if o.before == o.after == ObservedClosed && o.pending == PendingNotPresent &&
            o.publication == PublicationNotAttempted && o.cleanup == CleanupNotNeeded
    then NoApplicableWork
    else if o.after != ObservedClosed then ObservedFailure
    else
      var currentOrNoWriter := o.publication == PublicationNotAttempted || o.publication == CurrentStateConfirmed;
      if (o.before.ObservedOpen? && o.pending == PendingNotPresent && currentOrNoWriter &&
          o.cleanup == CleanupNotNeeded) ||
         (ActiveBefore(o) && o.pending == PendingCompleted && o.publication == CurrentStateConfirmed &&
          o.cleanup == CleanupNotNeeded) ||
         (o.before == ObservedOpen(Revoked) && o.pending == PendingNotPresent && currentOrNoWriter &&
          o.cleanup == CleanupComplete)
      then ReportComplete
      else ObservedFailure
  }

  // ---- what one flush reports ----

  /** A revocation finished within a flush of a context that was still live. */
  predicate RevokedWithin(s: Sys, t: Sys) {
    s.m.pending.Some? && Settled(t.m) && t.m.life.state == Revoked
  }

  /** What a flush tells its observer when it starts from a clean report. */
  ghost predicate Told(s: Sys, r: R, publishes: bool) {
    && r.s.o.flush.Some? && s.o.flush.Some?
    && (r.s.o.flush.value.failure != NoFailure ==> !Settled(r.s.m))
    && var before := s.o.flush.value;
       var after := r.s.o.flush.value;
       && (r.ok ==>
             && after.failure == NoFailure && after.before == before.before
             && after.pending == (if s.m.pending.Some? then PendingCompleted else before.pending)
             && after.cleanup == (if s.m.cleanup then CleanupComplete else before.cleanup)
             && after.publication ==
                (if publishes || s.m.pending.Some? then CurrentStateConfirmed else before.publication))
       && (!r.ok && after.failure == NoFailure ==>
             && RevokedWithin(s, r.s) && after.before == before.before
             && (after.pending == RevokedExpired || after.pending == RevokedAgeUncertain)
             && after.cleanup == CleanupComplete && after.publication == CurrentStateConfirmed)
  }

  ghost predicate Clean(o: Observer) {
    o.flush.Some? && o.flush.value.failure == NoFailure
  }

  lemma CleanUpTells(s: Sys)
    requires Clean(s.o) && s.m.cleanup
    ensures var r := CleanUp(s);
            r.s.o.flush.Some? && (r.ok <==> r.s.o.flush.value.failure == NoFailure) && (!r.ok ==> !Settled(r.s.m)) &&
            (r.ok ==> r.s.o.flush.value == s.o.flush.value.(cleanup := CleanupComplete) && !r.s.m.cleanup &&
                      r.s.m.dirty == s.m.dirty && r.s.m.life == s.m.life && r.s.m.isOpen == s.m.isOpen)
  {
    hide Reopen, Purge, RemoveMarker;
    UnblockTells(Purge(Reopen(s).s).s);
  }

  lemma UnblockTells(s: Sys)
    ensures var u := RemoveMarker(s);
            u.s.o == s.o && u.s.m == s.m
  {
  }

  lemma SettleTells(s: Sys)
    requires Clean(s.o) && s.m.isOpen
    ensures var r := Settle(s);
            r.s.o.flush.Some? && (r.ok <==> r.s.o.flush.value.failure == NoFailure) && (!r.ok ==> !Settled(r.s.m)) &&
            (r.ok ==> r.s.o.flush.value == s.o.flush.value.(
                        cleanup := if s.m.cleanup then CleanupComplete else s.o.flush.value.cleanup,
                        publication := if s.m.dirty then CurrentStateConfirmed else s.o.flush.value.publication) &&
                      !r.s.m.cleanup && !r.s.m.dirty && r.s.m.life == s.m.life && r.s.m.isOpen &&
                      r.s.m.pending == s.m.pending)
  {
    hide CleanUp;
    var published := if s.m.dirty then Publish(s) else R(s, true);
    if published.ok && published.s.m.cleanup {
      CleanUpTells(published.s);
    }
  }

  lemma CompletePendingTells(s: Sys)
    requires Clean(s.o) && s.m.isOpen && !s.m.cleanup
    ensures var r := CompletePending(s);
            r.s.o.flush.Some? && (r.ok <==> r.s.o.flush.value.failure == NoFailure) && (!r.ok ==> !Settled(r.s.m)) &&
            (r.ok ==> r.s.o.flush.value == s.o.flush.value.(
                        pending := PendingCompleted, publication := CurrentStateConfirmed) &&
                      Settled(r.s.m) && r.s.m.life == s.m.life)
  {
  }

  lemma MarkerTells(s: Sys)
    ensures WriteMarker(s).s.o == s.o && WriteMarker(s).s.m == s.m
  {
  }

  lemma FallbackTells(s: Sys)
    requires s.o.flush.Some? && s.m.cleanup
    ensures RevocationFallback(s).o.flush.Some? && RevocationFallback(s).o.flush.value.failure != NoFailure
    ensures RevocationFallback(s).m.cleanup
  {
    hide Purge, WriteMarker;
    MarkerTells(s.(o := s.o.Fail(StateFailed).PublicationFailed()));
  }

  /** With nothing pending, a flush is only its settling part. */
  lemma FlushWithoutPending(s: Sys, now: nat)
    requires s.m.pending.None?
    ensures Flush(s, now) == Settle(ExpireLoss(s, Now(s, now)))
  {
    hide Settle, RevokePending;
    var settled := Settle(ExpireLoss(s, Now(s, now)));
    assert FinishPending(settled.s, Now(s, now)) == R(settled.s, true);
  }

  /** Without a pending batch a revocation either records a failure or is finished and told as such. */
  lemma PersistRevocationTells(s: Sys, now: nat)
    requires Clean(s.o) && s.m.isOpen && s.m.pending.None? && s.m.cleanup
    ensures var r := PersistRevocation(s, now);
            r.s.o.flush.Some? && (r.s.o.flush.value.failure != NoFailure ==> !Settled(r.s.m)) &&
            (r.s.o.flush.value.failure == NoFailure ==>
               Settled(r.s.m) && r.s.m.life == s.m.life &&
               r.s.o.flush.value == s.o.flush.value.(cleanup := CleanupComplete,
                                                     publication := CurrentStateConfirmed))
  {
    hide RevocationFallback, Settle, Flush;
    var w := WriteState(s);
    if w.ok {
      var observed := w.s.(o := w.s.o.SetWitness(ProtectedStateConfirmed).SetPublication(CurrentStateConfirmed));
      FlushWithoutPending(observed, now);
      SettleTells(ExpireLoss(observed, Now(observed, now)));
    } else {
      FallbackTells(w.s);
    }
  }

  lemma DroppedFrame(s: Sys, samples: nat, batches: nat, now: nat)
    ensures var t := CountDropped(s, samples, batches, now);
            t.o == s.o && t.m.isOpen == s.m.isOpen && t.m.life == s.m.life
  {
  }

  lemma RevokePendingTells(s: Sys, now: nat)
    requires Clean(s.o) && s.m.isOpen && s.m.pending.Some?
    requires s.o.flush.value.pending == RevokedExpired || s.o.flush.value.pending == RevokedAgeUncertain
    ensures Told(s, RevokePending(s, now), true) && !RevokePending(s, now).ok
  {
    hide PersistRevocation, CountDropped;
    var revoking := Revoking(s, now);
    assert revoking.o == s.o.SetFlushCleanup(CleanupPending) && revoking.m.cleanup && revoking.m.dirty &&
           revoking.m.pending.None? && revoking.m.life.state == Revoked && revoking.m.isOpen by {
      DroppedFrame(s, |s.m.pending.value.samples|, 1, now);
    }
    hide Revoking;
    PersistRevocationTells(revoking.(o := revoking.o.(stop := None)), now);
  }

  lemma FinishPendingTells(s: Sys, now: nat)
    requires Clean(s.o) && s.m.isOpen && !s.m.dirty && !s.m.cleanup
    ensures Told(s, FinishPending(s, now), false)
    ensures FinishPending(s, now).ok ==>
              Settled(FinishPending(s, now).s.m) && FinishPending(s, now).s.m.life == s.m.life
  {
    hide Enqueue, CompletePending, RevokePending, FindBatch, LossOf;
    if s.m.pending.Some? {
      var b := s.m.pending.value;
      if FindBatch(s.m.box.records, b.producer, b.sequence) < |s.m.box.records| {
        CompletePendingTells(s);
      } else if LossOf(s.m.box.losses, b.context.sessionId).expired != 0 {
        RevokePendingTells(s.(o := s.o.SetPending(RevokedAgeUncertain)), Now(s, now));
      } else {
        var e := Enqueue(s, b);
        if e.ok {
          CompletePendingTells(e.s);
        }
      }
    }
  }

  /** A flush without a recorded failure has settled everything, and says exactly how. */
  lemma FlushTells(s: Sys, now: nat)
    requires Clean(s.o) && s.m.isOpen
    ensures var dirty := s.m.dirty || ExpiredAt(s.m.lossFirst, Now(s, now));
            Told(s, Flush(s, now), dirty)
    ensures Flush(s, now).ok ==> Settled(Flush(s, now).s.m) && Flush(s, now).s.m.life == s.m.life
  {
    hide Settle, FinishPending, RevokePending, PendingExpired;
    var t := Now(s, now);
    var s1 := ExpireLoss(s, t);
    if PendingExpired(s1.m, t) {
      ExpiredIsPending(s1.m, t);
      RevokePendingTells(s1.(o := s1.o.SetPending(RevokedExpired)), t);
    } else {
      SettleTells(s1);
      var settled := Settle(s1);
      if settled.ok {
        FinishPendingTells(settled.s, t);
      }
    }
  }

  lemma ExpiredIsPending(m: Mem, now: nat)
    requires PendingExpired(m, now)
    ensures m.pending.Some?
  {
  }

  // ---- the reports are true ----

  /** The disk holds the whole state of a settled coordinator and nothing that could still change it. */
  ghost predicate DiskTellsAll(s: Sys, later: nat, m: Mem) {
    && s.disk.state.Some? && !s.disk.blocked && s.m.pending.None?
    && LoadImage(s.cfg, s.disk.state.value, later, m).Some?
    && MemoryReloaded(s.m, LoadImage(s.cfg, s.disk.state.value, later, m).value)
    && (s.m.life.state == Revoked ==> Records(s.disk) == [])
  }

  lemma SettledDiskTellsAll(s: Sys, p: Promise, later: nat, m: Mem)
    requires OpenOk(s, p) && Settled(s.m) && s.clk <= later
    ensures DiskTellsAll(s, later, m)
  {
    CleanStateReloads(s, p, later, m);
    hide LoadImage, Good, Tracked;
  }

  /**
   * A disconnect, or a shutdown, of an open coordinator is reported complete (or, before any context was enabled, as
   * no applicable work) exactly when everything is published, cleaned up and enqueued.
   */
  lemma DisconnectReportTrue(s: Sys, p: Promise, later: nat, m: Mem)
    requires Inv(s, p) && s.m.isOpen
    ensures ServerDisconnect(s).o.flush.Some?
    ensures var d := ClassifyDisconnect(ServerDisconnect(s).o.flush.value);
            (d == ReportComplete || d == NoApplicableWork <==> Settled(ServerDisconnect(s).m)) &&
            (d == NoApplicableWork ==> s.m.life.state == Disabled) &&
            d != OutcomeUnavailable
    ensures ServerDisconnect(s).m.life.state != Enabled
    ensures Settled(ServerDisconnect(s).m) && s.clk <= later ==> DiskTellsAll(ServerDisconnect(s), later, m)
  {
    hide Flush, MemOk, Good, Strict, DiskTellsAll;
    DisconnectSafe(s, p);
    MemFacts(s, p);
    var s1 := s.(m := s.m.(life := s.m.life.Disconnect(), dirty := true),
                 o := UNOBSERVED.(flush := Some(EnterFlush(s.m))));
    FlushTells(s1, 0);
    DisconnectingSafe(s, p);
    FlushSafe(s1, 0, p);
    if Settled(ServerDisconnect(s).m) && s.clk <= later {
      SettledDiskTellsAll(ServerDisconnect(s), p, later, m);
    }
  }

  lemma MemFacts(s: Sys, p: Promise)
    requires OpenOk(s, p)
    ensures s.m.cleanup ==> s.m.life.state == Revoked
    ensures s.m.pending.Some? ==> s.m.life.state != Revoked && s.m.life.state != Disabled
    ensures s.m.life.context == s.m.context
  {
  }

  lemma DisconnectingSafe(s: Sys, p: Promise)
    requires Inv(s, p) && s.m.isOpen
    ensures var s1 := s.(m := s.m.(life := s.m.life.Disconnect(), dirty := true),
                         o := UNOBSERVED.(flush := Some(EnterFlush(s.m))));
            OpenOk(s1, p) && Strict(s1)
  {
    hide Tracked, History, ArchiveOk, Good;
  }

  /** A close is reported complete exactly when it closed; and then the disk holds everything. */
  lemma CloseReportTrue(s: Sys, p: Promise, later: nat, m: Mem)
    requires Inv(s, p) && s.m.isOpen && s.clk <= later
    ensures Close(s).o.flush.Some?
    ensures var d := ClassifyClose(Close(s).o.flush.value);
            (d == ReportComplete <==> !Close(s).m.isOpen) && (d == ReportComplete || d == ObservedFailure) &&
            (d == ReportComplete ==> DiskTellsAll(Close(s), later, m))
  {
    hide Flush, MemOk, Good, Strict, LoadImage, DiskTellsAll;
    var s1 := s.(o := UNOBSERVED.(flush := Some(EnterFlush(s.m))));
    ObserverIrrelevant(s, s1.o, p);
    StrictOnDisk(s, s1);
    MemFacts(s, p);
    FlushTells(s1, 0);
    FlushSafe(s1, 0, p);
    var f := Flush(s1, 0);
    if f.ok {
      SettledDiskTellsAll(f.s, p, later, m);
      ShutTellsAll(f.s, Close(s), later, m);
    }
  }

  lemma ShutTellsAll(s: Sys, t: Sys, later: nat, m: Mem)
    requires DiskTellsAll(s, later, m) && t.disk == s.disk && t.cfg == s.cfg
    requires t.m == s.m.(isOpen := t.m.isOpen, boxOpen := t.m.boxOpen, box := t.m.box)
    ensures DiskTellsAll(t, later, m)
  {
    hide LoadImage;
  }

  // ---- the stop report ----

  ghost predicate CleanStop(o: Observer) {
    o.stop.Some? && o.stop.value.error == NoFailure
  }

  lemma CleanUpTellsStop(s: Sys)
    requires CleanStop(s.o) && s.m.cleanup
    ensures var r := CleanUp(s);
            r.s.o.stop.Some? && (r.ok <==> r.s.o.stop.value.error == NoFailure) && (!r.ok ==> !Settled(r.s.m)) &&
            (r.ok ==> r.s.o.stop.value == s.o.stop.value.(cleanup := CleanupComplete) &&
                      !r.s.m.cleanup && r.s.m.dirty == s.m.dirty && r.s.m.life == s.m.life)
  {
    hide Reopen, Purge, RemoveMarker;
    UnblockTells(Purge(Reopen(s).s).s);
  }

  lemma SettleTellsStop(s: Sys)
    requires CleanStop(s.o) && s.m.isOpen && s.m.cleanup
    ensures var r := Settle(s);
            r.s.o.stop.Some? && (r.ok <==> r.s.o.stop.value.error == NoFailure) && (!r.ok ==> !Settled(r.s.m)) &&
            (r.ok ==> r.s.o.stop.value == s.o.stop.value.(cleanup := CleanupComplete) &&
                      !r.s.m.cleanup && !r.s.m.dirty && r.s.m.life == s.m.life && r.s.m.pending == s.m.pending)
  {
    hide CleanUp;
    var published := if s.m.dirty then Publish(s) else R(s, true);
    if published.ok {
      CleanUpTellsStop(published.s);
    }
  }

  lemma FallbackTellsStop(s: Sys)
    requires s.o.stop.Some? && s.m.cleanup
    ensures var t := RevocationFallback(s);
            t.o.stop.Some? && t.o.stop.value.error != NoFailure && t.m.cleanup
  {
    hide Purge, WriteMarker;
    MarkerTells(s.(o := s.o.Fail(StateFailed).PublicationFailed()));
  }

  /**
   * A stop of an open, bound coordinator is reported complete exactly when the revocation is published, the outbox is
   * empty and the refusal marker is gone.
   */
  lemma StopReportTrue(s: Sys, p: Promise)
    requires Inv(s, p) && s.m.isOpen && s.m.context.Bound()
    ensures ExplicitStop(s).o.stop.Some?
    ensures var t := ExplicitStop(s);
            ClassifyStop(t.o.stop.value) == ReportComplete <==>
            t.disk.state.Some? && t.disk.state.value.state == Revoked && t.disk.state.value.context == s.m.context &&
            Records(t.disk) == [] && !t.disk.blocked && Settled(t.m)
    ensures var d := ClassifyStop(ExplicitStop(s).o.stop.value);
            d == ReportComplete || d == ObservedFailure
  {
    hide MemOk, Good, Strict, Safe, PersistRevocation;
    StopTells(s, p);
    var t := ExplicitStop(s);
    if Settled(t.m) {
      SettledRevoked(t, p);
    }
  }

  /** What a stop reports: complete when it succeeded, with nothing left to do; else a failure, with work left. */
  lemma StopTells(s: Sys, p: Promise)
    requires Inv(s, p) && s.m.isOpen && s.m.context.Bound()
    ensures var t := ExplicitStop(s);
            && t.o.stop.Some? && OpenOk(t, p) && t.m.life.state == Revoked && t.m.context == s.m.context
            && (Settled(t.m) ==> ClassifyStop(t.o.stop.value) == ReportComplete)
            && (!Settled(t.m) ==> ClassifyStop(t.o.stop.value) == ObservedFailure)
  {
    hide MemOk, Good, Strict, Safe, PersistRevocation;
    StoppingSafe(s, p);
    PersistRevocationSafe(Stopping(s), s.clk, p);
    PersistTellsStop(Stopping(s), s.clk);
  }

  /** A revocation with nothing pending succeeds with a confirmed witness and a complete cleanup, or it fails. */
  lemma PersistTellsStop(s: Sys, now: nat)
    requires CleanStop(s.o) && s.m.isOpen && s.m.cleanup && s.m.pending.None?
    ensures var r := PersistRevocation(s, now);
            && r.s.o.stop.Some? && (!r.ok ==> r.s.o.stop.value.error != NoFailure && !Settled(r.s.m))
            && (r.ok ==> Settled(r.s.m))
            && (r.ok ==>
                  r.s.o.stop.value == s.o.stop.value.(durable := ProtectedStateConfirmed, cleanup := CleanupComplete))
  {
    hide Flush, Settle, RevocationFallback;
    var w := WriteState(s);
    if w.ok {
      var observed := w.s.(o := w.s.o.SetWitness(ProtectedStateConfirmed).SetPublication(CurrentStateConfirmed));
      FlushWithoutPending(observed, now);
      SettleTellsStop(ExpireLoss(observed, Now(observed, now)));
    } else {
      FallbackTellsStop(w.s);
    }
  }

  /** The refusal marker goes last: once it is gone the state on disk says revoked, and the outbox is empty. */
  lemma MarkerGoesLast(s: Sys, p: Promise)
    requires OpenOk(s, p) && s.disk.blocked && !Settle(s).s.disk.blocked
    ensures var d := Settle(s).s.disk;
            d.state.Some? && d.state.value.state == Revoked && d.state.value.context == s.m.context && Records(d) == []
  {
    hide Good, Strict, Tracked, ImageOk;
    SettleSafe(s, p);
    assert s.m.life.state == Revoked;
    MarkerNeedsCleanup(s);
  }

  lemma MarkerNeedsCleanup(s: Sys)
    requires s.disk.blocked && !Settle(s).s.disk.blocked
    ensures Settle(s).ok && !Settle(s).s.m.cleanup && Settle(s).s.m.life == s.m.life
    ensures Settle(s).s.m.context == s.m.context
  {
    hide OpenBox, Purge;
  }

  lemma SettledRevoked(s: Sys, p: Promise)
    requires OpenOk(s, p) && Settled(s.m) && s.m.life.state == Revoked
    ensures s.disk.state.Some? && s.disk.state.value.state == Revoked && s.disk.state.value.context == s.m.context
    ensures Records(s.disk) == [] && !s.disk.blocked
  {
    hide Tracked, ImageOk, Good;
  }
}
