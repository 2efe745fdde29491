/** What the calls achieve when storage does not fail, and exactly what an outbox operation takes out or counts. */
module TelemetryProgress {
  import opened Bytes
  import opened Lifecycle
  import opened Outcomes
  import opened TelemetryModel
  import opened TelemetryInvariant
  import opened TelemetrySafety
  import opened TelemetryCalls
  import opened TelemetryRuns
  import opened TelemetryConservation
  import opened TelemetryRecovery
  import opened TelemetryReports

  // ---- with nothing pending, working storage lets every flush through ----

  /** A cleanup replaces a latched outbox before it empties it. */
  lemma CleanUpAlwaysWorks(s: Sys)
    requires Working(s)
    ensures CleanUp(s).ok && Working(CleanUp(s).s)
  {
    if s.m.boxOpen {
      CleanUpWorks(s);
    } else {
      var latched := s.Tick().(m := s.m.(scrubPending := false));
      var reopened := OpenBox(latched, false);
      assert Reopen(s) == reopened;
      hide OpenBox, Purge;
      OpenBoxWorks(latched, false);
      OpenedIsOpen(latched, false);
      PurgeWorks(reopened.s);
      var purged := Purge(reopened.s);
      hide Reopen;
      UnblockWorks(purged.s);
      assert CleanUp(s) == Unblock(purged.s);
    }
  }

  lemma OpenedIsOpen(s: Sys, stale: bool)
    requires Working(s) && OpenBox(s, stale).ok
    ensures OpenBox(s, stale).s.m.boxOpen
  {
    hide PruneBox, NothingExpired, RemoveAged, Scrub;
  }

  lemma PurgeWorks(s: Sys)
    requires Working(s) && s.m.boxOpen
    ensures Purge(s).ok && Working(Purge(s).s)
  {
  }

  lemma FlushWorks(s: Sys, now: nat, p: Promise)
    requires OpenOk(s, p) && s.m.pending.None? && Working(s)
    ensures Flush(s, now).ok && Working(Flush(s, now).s)
  {
    hide OpenOk, Settle, CleanUp, WriteState;
    var t := Now(s, now);
    var s1 := ExpireLoss(s, t);
    ExpireLossQuiet(s, t);
    WriteStateWorks(s1);
    WriteStateFrame(s1);
    var published := if s1.m.dirty then Publish(s1) else R(s1, true);
    CleanUpAlwaysWorks(published.s);
    var settled := Settle(s1);
    assert settled.ok && Working(settled.s) && settled.s.m.pending.None? by { SettleUnfolds(s1, published); }
    assert FinishPending(settled.s, t) == R(settled.s, true);
  }

  lemma SettleUnfolds(s: Sys, published: R)
    requires published == (if s.m.dirty then Publish(s) else R(s, true)) && published.ok && Working(published.s)
    requires CleanUp(published.s).ok && Working(CleanUp(published.s).s)
    ensures Settle(s).ok && Working(Settle(s).s)
  {
    hide CleanUp, Publish;
  }

  lemma ExpireLossQuiet(s: Sys, now: nat)
    ensures var t := ExpireLoss(s, now);
            t.env == s.env && t.tick == s.tick && t.m.pending == s.m.pending
  {
  }

  // ---- enabling ----

  /**
   * On working storage an enable with nothing pending succeeds exactly when its identity is well formed and not
   * revoked, and it is the current context, or none is in force and there is a usable producer and room in the archive.
   * It then has the context enabled, in memory and on disk.
   */
  lemma EnableSucceedsIff(s: Sys, id: Identity, candidate: Option<Producer>, p: Promise)
    requires Inv(s, p) && s.m.isOpen && s.m.pending.None? && Working(s)
    ensures ServerEnable(s, id, candidate).ok <==>
            && id.Valid() && id !in s.m.life.revoked && !(s.m.life.state == Revoked && s.m.context == id)
            && if s.m.context != UNBOUND && s.m.life.state != Revoked then s.m.context == id
               else candidate.Some? && HasNonzero(candidate.value) && |s.m.life.revoked| < 16
    ensures ServerEnable(s, id, candidate).ok ==>
              var t := ServerEnable(s, id, candidate).s;
              && t.m.life.state == Enabled && t.m.context == id && t.disk.state == Some(ImageOf(t.m))
              && (s.m.context != id ==> t.m.producer == candidate.value && t.m.nextSeq == 1)
  {
    hide MemOk, Strict, Good, Flush, Authorize, NewContext;
    if id.Valid() {
      FlushWorks(s, 0, p);
      FlushSafe(s, 0, p);
      var f := Flush(s, 0).s;
      MemContext(s, p);
      MemContext(f, p);
      BoundOrUnbound(f, p);
      ValidIsBound(id);
      if !f.m.life.IsRevoked(id) {
        if !f.m.context.Empty() && f.m.life.state != Revoked {
          AuthorizeWorks(f, id);
        } else if candidate.Some? && f.m.life.CanSetContext(id) {
          NewContextWorks(f, id, candidate.value);
        }
      }
    }
  }

  lemma BoundOrUnbound(s: Sys, p: Promise)
    requires OpenOk(s, p)
    ensures s.m.context.Empty() <==> s.m.context == UNBOUND
    ensures |s.m.life.revoked| <= 16
  {
    hide Good, Tracked;
  }

  lemma AuthorizeWorks(s: Sys, id: Identity)
    requires Working(s) && s.m.isOpen && s.m.pending.None? && id.Valid() && s.m.context == s.m.life.context
    ensures var r := Authorize(s, id);
            r.ok <==> s.m.context == id && s.m.life.state != Revoked
    ensures var r := Authorize(s, id);
            r.ok ==> r.s.m.life.state == Enabled && r.s.m.context == s.m.context && r.s.m.producer == s.m.producer &&
                     r.s.m.nextSeq == s.m.nextSeq && r.s.disk.state == Some(ImageOf(r.s.m))
  {
    hide Identity.Valid;
    assert id.Bound() by { ValidIsBound(id); }
  }

  lemma NewContextWorks(s: Sys, id: Identity, producer: Producer)
    requires Working(s) && s.m.isOpen && s.m.pending.None? && id.Valid() && s.m.context == s.m.life.context != id
    requires !s.m.life.IsRevoked(id) && s.m.life.CanSetContext(id)
    ensures var r := Authorize(NewContext(s, id, producer), id);
            r.ok && r.s.m.life.state == Enabled && r.s.m.context == id && r.s.m.producer == producer &&
            r.s.m.nextSeq == 1 && r.s.disk.state == Some(ImageOf(r.s.m))
  {
    hide Authorize;
    AuthorizeWorks(NewContext(s, id, producer), id);
  }

  // ---- stopping ----

  /** On working storage a stop of a bound context is complete: revoked on disk, nothing stored, nothing left to do. */
  lemma StopSucceeds(s: Sys, p: Promise)
    requires Inv(s, p) && s.m.isOpen && s.m.context.Bound() && Working(s)
    ensures var t := ExplicitStop(s);
            && t.o.stop.Some? && ClassifyStop(t.o.stop.value) == ReportComplete && Settled(t.m)
            && t.m.life.state == Revoked
            && t.disk.state.Some? && t.disk.state.value.state == Revoked && t.disk.state.value.context == s.m.context
            && Records(t.disk) == [] && !t.disk.blocked
  {
    hide MemOk, Good, Strict, PersistRevocation, ClassifyStop;
    StopReportTrue(s, p);
    StoppingSafe(s, p);
    var stopping := Stopping(s);
    assert Working(stopping) && stopping.m.pending.None?;
    PersistWorks(stopping, s.clk, p);
    PersistRevocationSafe(stopping, s.clk, p);
    assert ExplicitStop(s) == PersistRevocation(stopping, s.clk).s;
    SettledRevoked(ExplicitStop(s), p);
  }

  lemma PersistWorks(s: Sys, now: nat, p: Promise)
    requires OpenOk(s, p) && s.m.pending.None? && Working(s) && s.m.cleanup
    ensures PersistRevocation(s, now).ok
  {
    hide OpenOk, Flush, WriteState;
    WriteStateWorks(s);
    WriteStateFrame(s);
    WriteStateSafe(s, p);
    var w := WriteState(s).s;
    var o := w.o.SetWitness(ProtectedStateConfirmed).SetPublication(CurrentStateConfirmed);
    ObserverIrrelevant(w, o, p);
    FlushWorks(w.(o := o), now, p);
  }

  // ---- acknowledging ----

  predicate Names(cfg: Config, r: Record, a: Ack) {
    r.batch.context.sessionId == a.session && r.batch.producer == a.producer && r.batch.sequence == a.sequence &&
    cfg.hash(r.batch) == a.hash
  }

  /** The counts of lost batches with one refusal more, up to the number of batches an outbox can hold. */
  ghost predicate CountsRefusal(before: Loss, after: Loss, status: AckStatus) {
    && after.expired == before.expired && (before.first != 0 ==> after.first == before.first)
    && after.rejected == (if status == Rejected then Min(before.rejected + 1, 4096) else before.rejected)
    && after.conflict == (if status == Conflict then Min(before.conflict + 1, 4096) else before.conflict)
  }

  /**
   * An acknowledgement acts on exactly the one record that it names by session, producer, sequence and hash. Unless the
   * server was unavailable the record goes and all others stay in their order; only a refusal is counted as lost, and
   * only for its session.
   */
  lemma AckActsExactly(s: Sys, a: Ack, now: nat, p: Promise)
    requires OpenOk(s, p) && s.m.boxOpen && Working(s)
    ensures var r := Acknowledge(s, a, now);
            var records, losses := s.m.box.records, s.m.box.losses;
            if exists i :: 0 <= i < |records| && Names(s.cfg, records[i], a) then
              && r.result == (match a.status
                              case Accepted => Retired
                              case Duplicate => Retired
                              case Rejected => DeletedTerminal
                              case Conflict => DeletedTerminal
                              case Unavailable => RetryScheduled)
              && r.s.disk.outbox == Some(r.s.m.box)
              && (if a.status == Unavailable then r.s.m.box == s.m.box
                  else exists i :: 0 <= i < |records| && Names(s.cfg, records[i], a) &&
                                   r.s.m.box.records == records[..i] + records[i + 1..])
              && (if a.status == Rejected || a.status == Conflict then
                    && (forall k :: k != a.session ==>
                          (k in r.s.m.box.losses <==> k in losses) &&
                          LossOf(r.s.m.box.losses, k) == LossOf(losses, k))
                    && CountsRefusal(LossOf(losses, a.session), LossOf(r.s.m.box.losses, a.session), a.status)
                  else r.s.m.box.losses == losses)
            else r == Acked(s, IgnoredMismatch)
  {
    hide OpenOk, TerminalLoss;
    var records := s.m.box.records;
    var i := FindAcked(s.cfg, records, a);
    if n :| 0 <= n < |records| && Names(s.cfg, records[n], a) {
      FindsNamed(s, a, n, p);
      TerminalCounts(s.m.box.losses, a, Min(now, s.clk));
      AppliesTo(s, a, now, i);
    }
  }

  lemma FindsNamed(s: Sys, a: Ack, n: nat, p: Promise)
    requires OpenOk(s, p) && s.m.boxOpen && n < |s.m.box.records| && Names(s.cfg, s.m.box.records[n], a)
    ensures FindAcked(s.cfg, s.m.box.records, a) == n
  {
    hide Good, ArchiveOk;
    var records := s.m.box.records;
    assert Records(s.disk) == records;
    var i := FindAcked(s.cfg, records, a);
    FindsSome(s.cfg, records, a, n);
    assert records[i].batch.sequence == records[n].batch.sequence;
  }

  lemma {:induction false} FindsSome(cfg: Config, records: seq<Record>, a: Ack, n: nat)
    requires n < |records| && AckMatches(cfg, records[n], a)
    ensures FindAcked(cfg, records, a) <= n
  {
    if n > 0 && !AckMatches(cfg, records[0], a) {
      FindsSome(cfg, records[1..], a, n - 1);
    }
  }

  lemma TerminalCounts(losses: map<Bytes16, Loss>, a: Ack, stamp: nat)
    ensures var after := TerminalLoss(losses, a, stamp);
            (a.status == Rejected || a.status == Conflict ==>
               CountsRefusal(LossOf(losses, a.session), LossOf(after, a.session), a.status)) &&
            forall k :: k != a.session ==> (k in after <==> k in losses) && LossOf(after, k) == LossOf(losses, k)
  {
  }

  lemma AppliesTo(s: Sys, a: Ack, now: nat, i: nat)
    requires Working(s) && i < |s.m.box.records| && Names(s.cfg, s.m.box.records[i], a)
    requires FindAcked(s.cfg, s.m.box.records, a) == i && s.m.boxOpen
    ensures var r := Acknowledge(s, a, now);
            && r == ApplyMatched(s, a, now, i) && r.s.disk.outbox == Some(r.s.m.box)
            && r.s.m.box == if a.status == Unavailable then s.m.box
                            else AckedBox(s.m.box, i, a, Min(now, s.clk))
  {
    hide AckedBox, TerminalLoss, FindAcked;
  }

  // ---- retention ----

  /** How many records of a session have expired. */
  function ExpiredOf(records: seq<Record>, session: Bytes16, now: nat): nat {
    if records == [] then 0
    else
      (if RecordExpired(records[0], now) && records[0].batch.context.sessionId == session then 1 else 0) +
      ExpiredOf(records[1..], session, now)
  }

  lemma {:induction false} BumpCounts(losses: map<Bytes16, Loss>, records: seq<Record>, now: nat, stamp: nat,
                                      session: Bytes16)
    requires LossOf(losses, session).expired <= 4096
    ensures var before, after := LossOf(losses, session), LossOf(BumpExpired(losses, records, now, stamp), session);
            && after.expired == Min(before.expired + ExpiredOf(records, session, now), 4096)
            && after.rejected == before.rejected && after.conflict == before.conflict
            && (before.first != 0 ==> after.first == before.first)
    decreases |records|
  {
    hide RecordExpired;
    if records != [] {
      if RecordExpired(records[0], now) {
        var own := records[0].batch.context.sessionId;
        var loss := LossOf(losses, own);
        var bumped := loss.(expired := Min(loss.expired + 1, MAX_OUTBOX_BATCHES),
                            first := if loss.first == 0 then stamp else loss.first);
        BumpCounts(losses[own := bumped], records[1..], now, stamp, session);
      } else {
        BumpCounts(losses, records[1..], now, stamp, session);
      }
    }
  }

  /** At least 30 days, on a clock that has not gone back, since the batch arrived or was first enqueued. */
  predicate PastRetention(since: nat, now: nat) {
    since > 0 && now >= since + 2_592_000_000
  }

  /**
   * Maintenance on working storage takes out exactly the batches past retention, keeps the others in their order, and
   * counts what it took out for each session, whose earlier counts lapse after the same time.
   */
  lemma PruneExactly(s: Sys, now: nat, session: Bytes16)
    requires Working(s)
    requires forall k :: k in s.m.box.losses ==> s.m.box.losses[k].expired <= 4096
    ensures var box, after := s.m.box, Prune(s, now).s.m.box;
            var kept := if session in box.losses && !PastRetention(box.losses[session].first, now)
                        then box.losses[session] else Loss(0, 0, 0, 0);
            && Prune(s, now).ok
            && after.records == Retained(box.records, now)
            && (forall r :: r in after.records <==>
                  r in box.records && !PastRetention(Min(r.arrival, r.batch.firstEnqueued), now))
            && LossOf(after.losses, session).rejected == kept.rejected
            && LossOf(after.losses, session).conflict == kept.conflict
            && LossOf(after.losses, session).expired == Min(kept.expired + ExpiredOf(box.records, session, now), 4096)
  {
    hide BumpExpired, NothingExpired, Prune, PruneBox, Retained, ExpiredOf, PastRetention;
    PruneWorks(s, now);
    var box := s.m.box;
    RetainedMembers(box.records, now);
    if NothingExpired(box, now) {
      IdlePrune(box, now, session);
      LiveLosses(box.losses, now, session);
    } else {
      PrunedCounts(box, now, s.clk, session);
    }
  }

  lemma LiveLosses(losses: map<Bytes16, Loss>, now: nat, session: Bytes16)
    ensures session in losses ==> (PastRetention(losses[session].first, now) <==> ExpiredAt(losses[session].first, now))
  {
  }

  lemma RetainedMembers(records: seq<Record>, now: nat)
    ensures forall r :: r in Retained(records, now) <==>
                          r in records && !PastRetention(Min(r.arrival, r.batch.firstEnqueued), now)
  {
    hide Retained;
    RetainedShrinks(records, now);
    assert forall r: Record :: RecordExpired(r, now) <==> PastRetention(Min(r.arrival, r.batch.firstEnqueued), now);
  }

  lemma PrunedCounts(box: Box, now: nat, clk: nat, session: Bytes16)
    requires forall k :: k in box.losses ==> box.losses[k].expired <= 4096
    ensures var after := PruneBox(box, now, clk);
            var kept := if session in box.losses && !PastRetention(box.losses[session].first, now)
                        then box.losses[session] else Loss(0, 0, 0, 0);
            && after.records == Retained(box.records, now)
            && LossOf(after.losses, session).rejected == kept.rejected
            && LossOf(after.losses, session).conflict == kept.conflict
            && LossOf(after.losses, session).expired == Min(kept.expired + ExpiredOf(box.records, session, now), 4096)
  {
    hide BumpExpired, Retained, ExpiredOf;
    var live := map k | k in box.losses && !ExpiredAt(box.losses[k].first, now) :: box.losses[k];
    LiveLosses(box.losses, now, session);
    BumpCounts(live, box.records, now, Min(now, clk), session);
  }

  lemma {:induction false} NoneExpired(records: seq<Record>, session: Bytes16, now: nat)
    requires forall i :: 0 <= i < |records| ==> !RecordExpired(records[i], now)
    ensures Retained(records, now) == records && ExpiredOf(records, session, now) == 0
  {
    hide RecordExpired;
    if records != [] {
      NoneExpired(records[1..], session, now);
    }
  }

  lemma IdlePrune(box: Box, now: nat, session: Bytes16)
    requires NothingExpired(box, now)
    ensures Retained(box.records, now) == box.records && ExpiredOf(box.records, session, now) == 0
    ensures session in box.losses ==> !ExpiredAt(box.losses[session].first, now)
  {
    hide RecordExpired;
    NoneExpired(box.records, session, now);
  }
}
