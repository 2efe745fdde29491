/** Conservation of samples and batches, for every pattern of storage failures. */
module TelemetryConservation {
  import opened Bytes
  import opened Lifecycle
  import opened Outcomes
  import opened TelemetryModel
  import opened TelemetryInvariant
  import opened TelemetrySafety
  import opened TelemetryCalls
  import opened TelemetryRuns

  function SampleTotal(batches: seq<Batch>): nat {
    if batches == [] then 0 else SampleTotal(batches[..|batches| - 1]) + |batches[|batches| - 1].samples|
  }

  lemma SampleTotalPush(batches: seq<Batch>, b: Batch)
    ensures SampleTotal(batches + [b]) == SampleTotal(batches) + |b.samples|
  {
    assert (batches + [b])[..|batches|] == batches;
  }

  /** Every sample the coordinator ever accepted or counted: enqueued, pending, dropped or not authorized. */
  function Samples(s: Sys): nat {
    SampleTotal(s.disk.enqueued) + (if s.m.pending.Some? then |s.m.pending.value.samples| else 0) +
    s.m.droppedSamples + s.m.notAuthorized
  }

  function Batches(s: Sys): nat {
    |s.disk.enqueued| + (if s.m.pending.Some? then 1 else 0) + s.m.droppedBatches
  }

  /** The loss window that is open, or would be opened now, is still within retention. */
  predicate NoExpiry(s: Sys, now: nat) {
    !ExpiredAt(if s.m.lossFirst == 0 then Min(now, s.clk) else s.m.lossFirst, now)
  }

  predicate Fits(s: Sys, samples: nat, batches: nat) {
    Samples(s) + samples <= U64_MAX && Batches(s) + batches <= U64_MAX
  }

  /** The pending batch, if any, is not in the outbox yet. */
  predicate Unstored(s: Sys) {
    s.m.pending.Some? ==>
      !s.m.cleanup &&
      FindBatch(s.m.box.records, s.m.pending.value.producer, s.m.pending.value.sequence) == |s.m.box.records|
  }

  ghost predicate Conserves(s: Sys, t: Sys, samples: nat, batches: nat, now: nat) {
    && Samples(t) == Samples(s) + samples && Batches(t) == Batches(s) + batches
    && t.clk == s.clk && (NoExpiry(s, now) ==> NoExpiry(t, now))
  }

  /** Two systems with the same batches and counters. */
  predicate SameCounts(s: Sys, t: Sys) {
    && t.disk.enqueued == s.disk.enqueued && t.m.pending == s.m.pending && t.clk == s.clk
    && t.m.droppedSamples == s.m.droppedSamples && t.m.droppedBatches == s.m.droppedBatches
    && t.m.notAuthorized == s.m.notAuthorized && t.m.lossFirst == s.m.lossFirst
  }

  lemma SameCountsConserve(s: Sys, t: Sys, now: nat)
    requires SameCounts(s, t)
    ensures Conserves(s, t, 0, 0, now)
  {
    hide SampleTotal, ExpiredAt;
  }

  lemma ConservesThrough(s: Sys, t: Sys, u: Sys, now: nat, x: nat, y: nat, x': nat, y': nat)
    requires Conserves(s, t, x, y, now) && Conserves(t, u, x', y', now)
    ensures Conserves(s, u, x + x', y + y', now)
  {
    hide Samples, Batches, NoExpiry;
  }

  lemma ConservesFits(s: Sys, t: Sys, samples: nat, batches: nat, more: nat, moreBatches: nat, now: nat)
    requires Conserves(s, t, samples, batches, now) && Fits(s, samples + more, batches + moreBatches)
    ensures Fits(t, more, moreBatches)
  {
    hide Samples, Batches, NoExpiry;
  }

  lemma StrictIsUnstored(s: Sys, p: Promise)
    requires OpenOk(s, p) && Strict(s)
    ensures Unstored(s)
  {
    hide Good, Tracked, ArchiveOk;
    assert forall i :: 0 <= i < |s.m.box.records| ==> s.m.box.records[i] in Records(s.disk);
  }

  lemma CountDroppedConserves(s: Sys, samples: nat, batches: nat, now: nat)
    requires NoExpiry(s, now) && Fits(s, samples, batches) && now > 0
    ensures Conserves(s, CountDropped(s, samples, batches, now), samples, batches, now)
    ensures CountDropped(s, samples, batches, now) == s.(m := CountDropped(s, samples, batches, now).m)
  {
    hide SampleTotal;
  }

  lemma SettleConserves(s: Sys, now: nat)
    ensures Conserves(s, Settle(s).s, 0, 0, now)
    ensures s.m.pending.Some? && !s.m.cleanup ==> Settle(s).s.m.box == s.m.box && Settle(s).s.m.cleanup == s.m.cleanup
  {
    hide Settle, SameCounts, Conserves;
    SettleFrame(s);
    SameCountsConserve(s, Settle(s).s, now);
  }

  /** Publishing and cleaning up move no sample. */
  lemma SettleFrame(s: Sys)
    ensures SameCounts(s, Settle(s).s)
    ensures !s.m.cleanup ==> Settle(s).s.m.box == s.m.box && !Settle(s).s.m.cleanup
  {
    hide CleanUp;
    var published := if s.m.dirty then Publish(s) else R(s, true);
    CleanUpFrame(published.s);
  }

  lemma BoxFrameCounts(s: Sys, t: Sys)
    requires BoxFrame(s, t)
    ensures SameCounts(s, t)
  {
  }

  lemma CleanUpFrame(s: Sys)
    ensures SameCounts(s, CleanUp(s).s)
  {
    hide Reopen, Purge, Unblock, BoxFrame, SameCounts;
    var reopened := Reopen(s).s;
    BoxFrameCounts(s, reopened);
    BoxFrameCounts(reopened, Purge(reopened).s);
    UnblockFrame(Purge(reopened).s);
    hide OutboxOnly;
    CleanUpCounts(s);
  }

  lemma CleanUpCounts(s: Sys)
    requires SameCounts(s, Reopen(s).s) && SameCounts(Reopen(s).s, Purge(Reopen(s).s).s)
    requires SameCounts(Purge(Reopen(s).s).s, Unblock(Purge(Reopen(s).s).s).s)
    ensures SameCounts(s, CleanUp(s).s)
  {
    hide Reopen, Purge, Unblock, BoxFrame;
  }

  lemma UnblockFrame(s: Sys)
    ensures SameCounts(s, Unblock(s).s)
  {
  }

  lemma EnqueueConserves(s: Sys)
    requires s.m.pending.Some?
    ensures var e := Enqueue(s, s.m.pending.value);
            (!e.ok ==> e.s.disk.enqueued == s.disk.enqueued && e.s.m == s.m) &&
            (e.ok ==> e.s.disk.enqueued == s.disk.enqueued + [s.m.pending.value])
  {
    hide CanEnqueue;
  }

  lemma CompletePendingFrame(s: Sys)
    ensures var t := CompletePending(s).s;
            t.disk.enqueued == s.disk.enqueued && t.m.pending.None? && t.clk == s.clk &&
            t.m.droppedSamples == s.m.droppedSamples && t.m.droppedBatches == s.m.droppedBatches &&
            t.m.notAuthorized == s.m.notAuthorized && t.m.lossFirst == s.m.lossFirst
  {
  }

  lemma FallbackFrame(s: Sys)
    ensures SameCounts(s, RevocationFallback(s))
  {
    hide Purge;
  }

  lemma PersistRevocationConserves(s: Sys, now: nat)
    requires s.m.pending.None? && now > 0 && NoExpiry(s, now)
    ensures Conserves(s, PersistRevocation(s, now).s, 0, 0, now) && PersistRevocation(s, now).s.m.pending.None?
  {
    hide Settle, RevocationFallback, Flush, Samples, Batches, Conserves, ExpiredAt;
    var w := WriteState(s);
    WriteStateFrame(s);
    if w.ok {
      var observed := w.s.(o := w.s.o.SetWitness(ProtectedStateConfirmed).SetPublication(CurrentStateConfirmed));
      SameCountsConserve(s, observed, now);
      FlushAlone(observed, now);
      SettleConserves(observed, now);
      ConservesThrough(s, observed, Settle(observed).s, now, 0, 0, 0, 0);
    } else {
      FallbackFrame(w.s);
      SameCountsConserve(s, RevocationFallback(w.s), now);
    }
  }

  /** With nothing pending and no expiry, a flush is only its settling part. */
  lemma FlushAlone(s: Sys, now: nat)
    requires s.m.pending.None? && NoExpiry(s, Now(s, now))
    ensures Flush(s, now) == Settle(s)
  {
    hide Settle, RevokePending;
    assert ExpireLoss(s, Now(s, now)) == s;
    assert FinishPending(Settle(s).s, Now(s, now)) == R(Settle(s).s, true);
  }

  lemma RevokingConserves(s: Sys, now: nat, o: Observer)
    requires s.m.pending.Some? && now > 0 && NoExpiry(s, now) && Fits(s, 0, 0)
    ensures var t := Revoking(s, now).(o := o);
            Conserves(s, t, 0, 0, now) && t.m.pending.None? && NoExpiry(t, now)
  {
    hide SampleTotal;
    var dropped := s.(m := s.m.(pending := None));
    CountDroppedConserves(dropped, |s.m.pending.value.samples|, 1, now);
  }

  lemma RevokePendingConserves(s: Sys, now: nat)
    requires s.m.pending.Some? && now > 0 && NoExpiry(s, now) && Fits(s, 0, 0)
    ensures Conserves(s, RevokePending(s, now).s, 0, 0, now) && RevokePending(s, now).s.m.pending.None?
  {
    hide PersistRevocation, Revoking, Samples, Batches, NoExpiry, Conserves;
    var revoking := Revoking(s, now);
    var unobserved := revoking.(o := revoking.o.(stop := None));
    RevokingConserves(s, now, unobserved.o);
    PersistRevocationConserves(unobserved, now);
    var persisted := PersistRevocation(unobserved, now).s;
    SameCountsConserve(persisted, RevokePending(s, now).s, now);
    ConservesThrough(s, unobserved, persisted, now, 0, 0, 0, 0);
    ConservesThrough(s, persisted, RevokePending(s, now).s, now, 0, 0, 0, 0);
  }

  lemma FinishPendingConserves(s: Sys, now: nat)
    requires Unstored(s) && now > 0 && NoExpiry(s, now) && Fits(s, 0, 0)
    ensures Conserves(s, FinishPending(s, now).s, 0, 0, now)
  {
    hide SampleTotal, Enqueue, CompletePending, RevokePending, FindBatch, LossOf;
    if s.m.pending.Some? {
      if LossOf(s.m.box.losses, s.m.pending.value.context.sessionId).expired != 0 {
        RevokePendingConserves(s.(o := s.o.SetPending(RevokedAgeUncertain)), now);
      } else {
        EnqueueConserves(s);
        var e := Enqueue(s, s.m.pending.value);
        if e.ok {
          SampleTotalPush(s.disk.enqueued, s.m.pending.value);
          CompletePendingFrame(e.s);
        }
      }
    }
  }

  /** A flush moves samples between pending, enqueued and dropped, and loses none. */
  lemma FlushConserves(s: Sys, now: nat)
    requires Unstored(s) && Now(s, now) > 0 && NoExpiry(s, Now(s, now)) && Fits(s, 0, 0)
    ensures Conserves(s, Flush(s, now).s, 0, 0, Now(s, now))
  {
    hide SampleTotal, Settle, FinishPending, RevokePending, FindBatch;
    var t := Now(s, now);
    assert ExpireLoss(s, t) == s;
    if PendingExpired(s.m, t) {
      RevokePendingConserves(s.(o := s.o.SetPending(RevokedExpired)), t);
    } else {
      SettleConserves(s, t);
      SettleFrame(s);
      var settled := Settle(s);
      if settled.ok {
        FinishPendingConserves(settled.s, t);
      }
    }
  }

  // ---- ingest ----

  lemma DropRemainingConserves(s: Sys, samples: nat, now: nat, p: Promise)
    requires OpenOk(s, p) && Strict(s) && now > 0 && NoExpiry(s, now) && Fits(s, samples, Ceiling(samples))
    ensures Conserves(s, DropRemaining(s, samples, now), samples, Ceiling(samples), now)
  {
    hide SampleTotal, OpenOk, CountDropped, Flush, Strict, FindBatch;
    CountDroppedConserves(s, samples, Ceiling(samples), now);
    StrictIsUnstored(s, p);
    CountDroppedSafe(s, samples, Ceiling(samples), now, p);
    var c := CountDropped(s, samples, Ceiling(samples), now);
    FlushConserves(c.(m := c.m.(dirty := true)), now);
  }

  lemma DropTailConserves(s: Sys, samples: nat, now: nat)
    requires now > 0 && NoExpiry(s, now) && Fits(s, samples, Ceiling(samples))
    ensures Conserves(s, DropTail(s, samples, now), samples, Ceiling(samples), now)
  {
    hide SampleTotal, CountDropped, WriteState, ExpiredAt;
    if samples != 0 {
      CountDroppedConserves(s, samples, Ceiling(samples), now);
      var c := CountDropped(s, samples, Ceiling(samples), now);
      WriteStateFrame(c.(m := c.m.(dirty := true)));
    }
  }

  lemma WriteStateFrame(s: Sys)
    ensures var t := WriteState(s).s;
            t.m == s.m.(dirty := t.m.dirty) && t.disk == s.disk.(state := t.disk.state) && t.clk == s.clk
  {
  }

  lemma CeilingSplits(samples: nat)
    requires samples > 0
    ensures var n := Min(samples, BATCH_LIMIT);
            Ceiling(samples) == 1 + Ceiling(samples - n) && Ceiling(0) == 0
  {
  }

  lemma {:induction false} IngestLoopConserves(s: Sys, samples: seq<Sample>, now: nat, p: Promise)
    requires OpenOk(s, p) && Strict(s) && Settled(s.m) && s.m.life.state == Enabled
    requires now > 0 && NoExpiry(s, now) && Fits(s, |samples|, Ceiling(|samples|))
    ensures Conserves(s, IngestLoop(s, samples, now).s, |samples|, Ceiling(|samples|), now)
    decreases |samples|
  {
    hide SampleTotal, OpenOk, Strict, DropRemaining, DropTail, Flush, CanStage, FindBatch, Ceiling, ExpiredAt;
    if samples == [] {
      CeilingSplits(1);
    } else {
      CeilingSplits(|samples|);
      var n := Min(|samples|, BATCH_LIMIT);
      var b := NextBatch(s, samples[..n], now);
      if !CanStage(s, b) {
        DropRemainingConserves(s, |samples|, now, p);
      } else {
        var staged := Stage(s, b, now);
        StageSafe(s, b, now, p);
        StrictIsUnstored(staged, p);
        FlushConserves(staged, now);
        FlushSafe(staged, now, p);
        var f := Flush(staged, now);
        if f.ok {
          IngestLoopConserves(f.s, samples[n..], now, p);
        } else {
          DropTailConserves(f.s, |samples| - n, now);
        }
      }
    }
  }

  /**
   * Whatever storage does, every sample offered ends up enqueued, pending, dropped or not authorized; and a call that
   * is authorized accounts for exactly one batch per started group of 32 samples.
   */
  lemma IngestConserves(s: Sys, samples: seq<Sample>, now: nat, p: Promise)
    requires Inv(s, p) && s.m.isOpen && NoExpiry(s, Now(s, now)) && Fits(s, |samples|, Ceiling(|samples|))
    ensures Conserves(s, Ingest(s, samples, now).s, |samples|,
                      if s.m.life.state == Enabled then Ceiling(|samples|) else 0, Now(s, now))
  {
    hide Samples, Batches, NoExpiry, Conserves, Fits, MemOk, Good, Strict, DropRemaining, Flush, IngestLoop,
         Unauthorized, Ceiling, Safe;
    CeilingSplits(1);
    ClockRuns(s, p);
    var t := Now(s, now);
    FewerFit(s, |samples|, Ceiling(|samples|), |samples|, 0);
    FewerFit(s, |samples|, Ceiling(|samples|), 0, 0);
    if samples == [] {
      SameCountsConserve(s, s, t);
    } else if s.m.life.state != Enabled {
      UnauthorizedConserves(s, |samples|, now, p);
    } else {
      StrictIsUnstored(s, p);
      FlushConserves(s, t);
      ConservesFits(s, Flush(s, t).s, 0, 0, |samples|, Ceiling(|samples|), t);
      FlushSafe(s, t, p);
      StillNoExpiry(s, Flush(s, t).s, t);
      var f := Flush(s, t);
      if f.ok {
        IngestLoopConserves(f.s, samples, t, p);
        ConservesThrough(s, f.s, IngestLoop(f.s, samples, t).s, t, 0, 0, |samples|, Ceiling(|samples|));
      } else {
        DropRemainingConserves(f.s, |samples|, t, p);
        ConservesThrough(s, f.s, DropRemaining(f.s, |samples|, t), t, 0, 0, |samples|, Ceiling(|samples|));
      }
    }
  }

  lemma ClockRuns(s: Sys, p: Promise)
    requires Inv(s, p)
    ensures s.clk > 0
  {
    hide MemOk, Good, Strict;
  }

  lemma FewerFit(s: Sys, samples: nat, batches: nat, fewer: nat, fewerBatches: nat)
    requires Fits(s, samples, batches) && fewer <= samples && fewerBatches <= batches
    ensures Fits(s, fewer, fewerBatches)
  {
    hide Samples, Batches;
  }

  lemma StillNoExpiry(s: Sys, t: Sys, now: nat)
    requires Conserves(s, t, 0, 0, now) && NoExpiry(s, now)
    ensures NoExpiry(t, now) && t.clk == s.clk
  {
    hide Samples, Batches, NoExpiry;
  }

  lemma TouchConserves(s: Sys, samples: nat, now: nat)
    requires NoExpiry(s, Now(s, now)) && Fits(s, samples, 0) && s.clk > 0
    ensures var t := TouchLoss(s, now);
            var counted := t.(m := t.m.(notAuthorized := AddSaturated(t.m.notAuthorized, samples), dirty := true));
            && Conserves(s, counted, samples, 0, Now(s, now)) && Fits(counted, 0, 0)
            && (Unstored(s) ==> Unstored(counted)) && NoExpiry(counted, Now(s, now)) && counted.clk == s.clk
  {
    hide SampleTotal, FindBatch;
  }

  lemma UnauthorizedConserves(s: Sys, samples: nat, now: nat, p: Promise)
    requires Inv(s, p) && s.m.isOpen && NoExpiry(s, Now(s, now)) && Fits(s, samples, 0)
    ensures Conserves(s, Unauthorized(s, samples, now), samples, 0, Now(s, now))
  {
    hide Samples, Batches, NoExpiry, Conserves, Fits, Unstored, TouchLoss, MemOk, Good, Strict, Flush, Safe;
    ClockRuns(s, p);
    StrictIsUnstored(s, p);
    TouchConserves(s, samples, now);
    var t := TouchLoss(s, now);
    var counted := t.(m := t.m.(notAuthorized := AddSaturated(t.m.notAuthorized, samples), dirty := true));
    FlushConserves(counted, now);
    ConservesThrough(s, counted, Flush(counted, now).s, Now(s, now), samples, 0, 0, 0);
  }

  // ---- the other calls ----

  predicate SameTotals(s: Sys, t: Sys) {
    Samples(t) == Samples(s) && Batches(t) == Batches(s)
  }

  lemma MaintenanceConserves(s: Sys, now: nat, p: Promise)
    requires OpenOk(s, p) && Strict(s) && NoExpiry(s, Now(s, now)) && Fits(s, 0, 0)
    ensures Conserves(s, Maintenance(s, now).s, 0, 0, Now(s, now))
  {
    hide SampleTotal, Flush, Prune;
    StrictIsUnstored(s, p);
    FlushConserves(s, Now(s, now));
  }

  lemma AuthorizeFrame(s: Sys, id: Identity)
    ensures var t := Authorize(s, id).s;
            Conserves(s, t, 0, 0, t.clk) && t.m.lossFirst == s.m.lossFirst
  {
    hide SampleTotal;
  }

  predicate NothingCounted(m: Mem) {
    m.droppedSamples == m.droppedBatches == m.notAuthorized == m.lossFirst == 0
  }

  lemma EnableConserves(s: Sys, id: Identity, candidate: Option<Producer>, p: Promise)
    requires Inv(s, p) && s.m.isOpen && (id == s.m.context || NothingCounted(s.m))
    requires NoExpiry(s, s.clk) && Fits(s, 0, 0)
    ensures SameTotals(s, ServerEnable(s, id, candidate).s)
  {
    hide Samples, Batches, MemOk, Good, Strict, Flush, Authorize, NewContext, NoExpiry;
    StrictIsUnstored(s, p);
    FlushConserves(s, 0);
    FlushSafe(s, 0, p);
    var f := Flush(s, 0);
    AuthorizeFrame(f.s, id);
    MemContext(f.s, p);
    if f.ok && id.Valid() && !f.s.m.life.IsRevoked(id) && candidate.Some? && f.s.m.life.CanSetContext(id) &&
       (f.s.m.context.Empty() || f.s.m.life.state == Revoked) {
      if id != s.m.context {
        NoPendingWithoutContext(s, p);
        NewContextConserves(s, id, candidate.value);
        AuthorizeFrame(NewContext(f.s, id, candidate.value), id);
      }
    }
  }

  /** With nothing pending and nothing counted, a new context starts from the same totals. */
  lemma NewContextConserves(s: Sys, id: Identity, producer: Producer)
    requires s.m.pending.None? && NothingCounted(s.m) && NoExpiry(s, s.clk)
    requires Flush(s, 0).s.m.life.CanSetContext(id)
    ensures SameTotals(s, NewContext(Flush(s, 0).s, id, producer))
  {
    hide SampleTotal, Flush, Settle;
    FlushAlone(s, 0);
    SettleFrame(s);
  }

  lemma DisconnectConserves(s: Sys, p: Promise)
    requires Inv(s, p) && s.m.isOpen && NoExpiry(s, s.clk) && Fits(s, 0, 0)
    ensures SameTotals(s, ServerDisconnect(s))
  {
    hide SampleTotal, MemOk, Good, Strict, Flush, ExpiredAt;
    StrictIsUnstored(s, p);
    FlushConserves(s.(m := s.m.(life := s.m.life.Disconnect(), dirty := true),
                      o := UNOBSERVED.(flush := Some(EnterFlush(s.m)))), 0);
  }

  lemma CloseConserves(s: Sys, p: Promise)
    requires Inv(s, p) && s.m.isOpen && NoExpiry(s, s.clk) && Fits(s, 0, 0)
    ensures SameTotals(s, Close(s))
  {
    hide SampleTotal, MemOk, Good, Strict, Flush, ExpiredAt;
    StrictIsUnstored(s, p);
    FlushConserves(s.(o := UNOBSERVED.(flush := Some(EnterFlush(s.m)))), 0);
  }

  lemma AckConserves(s: Sys, a: Ack, now: nat, p: Promise)
    requires Inv(s, p) && s.m.isOpen && NoExpiry(s, Now(s, now)) && Fits(s, 0, 0)
    ensures SameTotals(s, ServerAck(s, a, now).s)
  {
    hide SampleTotal, MemOk, Good, Strict, Flush, Acknowledge;
    StrictIsUnstored(s, p);
    FlushConserves(s, now);
  }

  // ---- closing and opening again ----

  predicate SavedCounts(img: Image, m: Mem) {
    && img.pending.None? && img.droppedSamples == m.droppedSamples && img.droppedBatches == m.droppedBatches
    && img.notAuthorized == m.notAuthorized && img.lossFirst == m.lossFirst
  }

  /**
   * Nothing is lost by opening: the coordinator is open, or the marker blocks every open, or closed memory counts
   * what the disk counts and nothing is pending.
   */
  predicate Kept(s: Sys) {
    s.m.isOpen || s.disk.blocked ||
    (s.m.pending.None? && SavedCounts(if s.disk.state.Some? then s.disk.state.value else ImageOf(BOOT), s.m))
  }

  /** A close that completes has saved every counter and has nothing pending. */
  lemma CloseKeeps(s: Sys, p: Promise)
    requires Inv(s, p) && (s.m.isOpen ==> NoExpiry(s, s.clk) && Fits(s, 0, 0)) && Kept(s)
    ensures var c := CloseLocked(s);
            Kept(c.s) && Conserves(s, c.s, 0, 0, s.clk) && (c.ok ==> !c.s.m.isOpen)
  {
    hide SampleTotal, Good, Strict, Flush, Tracked, ArchiveOk, ExpiredAt;
    if s.m.isOpen {
      StrictIsUnstored(s, p);
      FlushConserves(s, 0);
      FlushSafe(s, 0, p);
    }
  }

  lemma CleanUpKeepsState(s: Sys)
    ensures CleanUp(s).s.disk.state == s.disk.state
  {
    hide Reopen, Purge;
    assert BoxFrame(s, Reopen(s).s) && BoxFrame(Reopen(s).s, Purge(Reopen(s).s).s);
  }

  /** Opening the outbox over saved counters moves no sample, however it ends. */
  lemma OpenLoadedConserves(s: Sys, stale: bool)
    requires s.m.pending.None? && !s.m.dirty && NoExpiry(s, s.clk)
    requires s.disk.state.Some? && SavedCounts(s.disk.state.value, s.m)
    ensures var t := OpenLoaded(s, stale).s;
            SameCounts(s, t) && Kept(t)
  {
    hide OpenBox, Flush, RevokePending, Consistent, CleanUp, ExpiredAt;
    var b := OpenBox(s, stale);
    assert BoxFrame(s, b.s);
    var ready := b.s.(m := b.s.m.(isOpen := true, cleanup := b.s.m.life.state == Revoked));
    FlushAlone(ready, 0);
    CleanUpFrame(ready);
    CleanUpKeepsState(ready);
  }

  lemma OpenFreshConserves(s: Sys, stale: bool)
    requires !s.m.isOpen && !s.disk.blocked && s.disk.state.None? && Kept(s) && NoExpiry(s, s.clk)
    ensures var t := OpenFresh(s, stale).s;
            SameCounts(s, t) && Kept(t)
  {
    hide OpenLoaded, ExpiredAt;
    var w := WriteState(Fresh(s));
    if w.ok {
      OpenLoadedConserves(w.s, stale);
    }
  }

  lemma OpenSavedConserves(s: Sys, stale: bool, p: Promise)
    requires Inv(s, p) && !s.m.isOpen && !s.disk.blocked && s.disk.state.Some? && Kept(s) && NoExpiry(s, s.clk)
    ensures var t := OpenSaved(s, s.disk.state.value, stale).s;
            SameCounts(s, t) && Kept(t)
  {
    hide OpenLoaded, ExpiredAt, LoadImage, History, Tracked, ArchiveOk, MemOk, Strict;
    var img := s.disk.state.value;
    GoodImageLoads(s.cfg, img, s.clk, s.clk, s.m);
    OpenLoadedConserves(s.(m := LoadImage(s.cfg, img, s.clk, s.m).value), stale);
  }

  /** An open, whether it succeeds or not, accounts for every sample that was accounted for before it. */
  lemma OpenConserves(s: Sys, stale: bool, p: Promise)
    requires Inv(s, p) && Kept(s) && NoExpiry(s, s.clk) && Fits(s, 0, 0)
    ensures SameTotals(s, Open(s, stale).s) && Kept(Open(s, stale).s)
  {
    hide SampleTotal, Good, MemOk, Strict, CloseLocked, OpenFresh, OpenSaved, ExpiredAt;
    CloseKeeps(s, p);
    CloseLockedSafe(s, p);
    var c := CloseLocked(s);
    if c.ok {
      var s1 := c.s.(m := c.s.m.(pathKnown := true));
      assert Inv(s1, p) && Kept(s1) && NoExpiry(s1, s1.clk);
      if !s1.disk.blocked && s1.disk.state.Some? {
        OpenSavedConserves(s1, stale, p);
      } else if !s1.disk.blocked {
        OpenFreshConserves(s1, stale);
      }
    }
  }

  /** Calls other than a stop over a pending batch and the start of a context over counted losses. */
  predicate ForgetsNothing(s: Sys, c: Call) {
    !s.m.isOpen ||
    match c
    case DoStop => s.m.pending.None?
    case DoEnable(id, _) => id == s.m.context || NothingCounted(s.m)
    case _ => true
  }

  function CallNow(s: Sys, c: Call): nat {
    match c
    case DoIngest(_, now) => Now(s, now)
    case DoAck(_, now) => Now(s, now)
    case DoSend(now, _) => Now(s, now)
    case DoMaintain(now) => Now(s, now)
    case _ => s.clk
  }

  function Offers(s: Sys, c: Call): nat {
    if c.DoIngest? && s.m.isOpen then |c.samples| else 0
  }

  /** The batches an authorized call has to account for. */
  function Groups(s: Sys, c: Call): nat {
    if c.DoIngest? && s.m.isOpen && s.m.life.state == Enabled then Ceiling(|c.samples|) else 0
  }

  /** Every call that forgets nothing accounts for exactly the samples it was offered and the batches it started. */
  lemma CallConserves(s: Sys, c: Call, p: Promise)
    requires Inv(s, p) && ForgetsNothing(s, c) && NoExpiry(s, CallNow(s, c)) && (c.DoOpen? ==> Kept(s))
    requires Fits(s, Offers(s, c), Ceiling(Offers(s, c)))
    ensures Samples(Exec(s, c).s) == Samples(s) + Offers(s, c)
    ensures Batches(Exec(s, c).s) == Batches(s) + Groups(s, c)
  {
    hide SampleTotal, MemOk, Good, Strict, Flush, Maintenance, Authorize, Acknowledge, Ingest, Ceiling;
    if c.DoOpen? {
      OpenConserves(s, c.stale, p);
    } else if s.m.isOpen {
      match c {
        case DoEnable(id, candidate) => EnableConserves(s, id, candidate, p);
        case DoStop => StopConserves(s, p);
        case DoDisconnect => DisconnectConserves(s, p);
        case DoClose => CloseConserves(s, p);
        case DoIngest(samples, now) => IngestConserves(s, samples, now, p);
        case DoAck(a, now) => AckConserves(s, a, now, p);
        case DoSend(now, _) => MaintenanceConserves(s, now, p);
        case DoMaintain(now) => MaintenanceConserves(s, now, p);
      }
    } else {
      ClosedConserves(s, c);
    }
  }

  lemma ClosedConserves(s: Sys, c: Call)
    requires !s.m.isOpen && ForgetsNothing(s, c) && !c.DoOpen?
    ensures SameTotals(s, Exec(s, c).s)
  {
    hide SampleTotal;
    if c.DoMaintain? {
      assert BoxFrame(s, RemoveOutboxFile(s).s);
    }
  }

  /** Such a call leaves nothing that opening could lose. */
  lemma CallKeeps(s: Sys, c: Call, p: Promise)
    requires Inv(s, p) && ForgetsNothing(s, c) && Kept(s) && NoExpiry(s, CallNow(s, c)) && Fits(s, 0, 0)
    requires s.m.isOpen && !c.DoOpen? && !c.DoClose? ==> Exec(s, c).s.m.isOpen
    ensures Kept(Exec(s, c).s)
  {
    hide Samples, Batches, MemOk, Good, Strict, Open, CloseLocked, Flush, Maintenance, Authorize, Acknowledge, Ingest;
    if c.DoOpen? {
      OpenConserves(s, c.stale, p);
    } else if s.m.isOpen {
      if c.DoClose? {
        var observed := s.(o := UNOBSERVED.(flush := Some(EnterFlush(s.m))));
        ObserverIrrelevant(s, observed.o, p);
        StrictOnDisk(s, observed);
        SameCountsConserve(s, observed, s.clk);
        CloseKeeps(observed, p);
      }
    } else {
      ClosedKeeps(s, c);
    }
  }

  lemma ClosedKeeps(s: Sys, c: Call)
    requires !s.m.isOpen && ForgetsNothing(s, c) && !c.DoOpen? && Kept(s)
    ensures Kept(Exec(s, c).s)
  {
    if c.DoMaintain? {
      assert BoxFrame(s, RemoveOutboxFile(s).s);
    }
  }

  /** An authorized or revoked context is its own lifecycle's context; an empty one is never enabled. */
  lemma MemContext(s: Sys, p: Promise)
    requires OpenOk(s, p)
    ensures s.m.life.context == s.m.context
    ensures s.m.context.Empty() ==> s.m.context == UNBOUND
  {
  }

  /** An explicit stop is the one call that forgets samples: exactly those still pending. */
  lemma StopForgetsPending(s: Sys, p: Promise)
    requires Inv(s, p) && s.m.isOpen && s.m.context.Bound() && NoExpiry(s, s.clk) && Fits(s, 0, 0)
    ensures Samples(ExplicitStop(s)) + (if s.m.pending.Some? then |s.m.pending.value.samples| else 0) == Samples(s)
    ensures Batches(ExplicitStop(s)) + (if s.m.pending.Some? then 1 else 0) == Batches(s)
  {
    hide SampleTotal, PersistRevocation;
    PersistRevocationConserves(Stopping(s), s.clk);
  }

  lemma StopConserves(s: Sys, p: Promise)
    requires Inv(s, p) && s.m.isOpen && s.m.pending.None? && NoExpiry(s, s.clk) && Fits(s, 0, 0)
    ensures SameTotals(s, ExplicitStop(s))
  {
    hide SampleTotal, PersistRevocation, MemOk, Good, Strict;
    if s.m.context.Bound() {
      StopForgetsPending(s, p);
    }
  }

  /** A stop conserves samples exactly when no sample is pending. */
  lemma StopConservesIff(s: Sys, p: Promise)
    requires Inv(s, p) && NoExpiry(s, s.clk) && Fits(s, 0, 0)
    ensures Samples(ExplicitStop(s)) == Samples(s) <==>
            !(s.m.isOpen && s.m.pending.Some? && s.m.pending.value.samples != [])
  {
    hide SampleTotal, PersistRevocation, Good, Strict;
    if s.m.isOpen {
      if s.m.context.Bound() {
        StopForgetsPending(s, p);
      } else if s.m.pending.Some? {
        PendingIsBound(s, p);
      }
    }
  }

  lemma PendingIsBound(s: Sys, p: Promise)
    requires OpenOk(s, p) && s.m.pending.Some?
    ensures s.m.context.Bound()
  {
    hide Good, Tracked, ArchiveOk;
    ValidIsBound(s.m.context);
  }

  /** The batch that the first authorized call of a fresh coordinator stages. */
  function FirstBatch(clk: nat, id: Identity, producer: Producer, samples: seq<Sample>): Batch {
    Batch(id, producer, 1, clk, samples)
  }

  /** The intent was saved by the first of two durable operations, and the second failed. */
  ghost predicate IntentSaved(s: Sys, t: Sys) {
    && t.tick == s.tick + 2 && t.env == s.env && t.m.boxOpen && t.disk.blocked == s.disk.blocked
    && t.disk.state.Some? && t.disk.state.value.pending == t.m.pending
  }

  /** When the intent is saved and the outbox write fails, the batch stays pending. */
  lemma FailedIngestStaysPending(s: Sys, samples: seq<Sample>)
    requires Idle(s.m) && s.m.life.state == Enabled && s.m.nextSeq == 1 && s.clk > 0
    requires Works(s, 1) && s.env(s.tick + 1) == Fault(false, false, false) && 1 <= |samples| <= BATCH_LIMIT
    requires 0 < s.cfg.wireSize(FirstBatch(s.clk, s.m.context, s.m.producer, samples)) <= MAX_BATCH_BYTES
    ensures var t := Ingest(s, samples, 0).s;
            && t.m.isOpen && t.m.context == s.m.context && t.clk == s.clk && t.disk.enqueued == s.disk.enqueued
            && IntentSaved(s, t)
            && t.m.pending == Some(FirstBatch(s.clk, s.m.context, s.m.producer, samples))
            && t.m.lossFirst == t.m.droppedSamples == t.m.droppedBatches == t.m.notAuthorized == 0
  {
    hide Flush;
    IdleFlush(s, s.clk);
    var b := NextBatch(s, samples, s.clk);
    assert samples[..|samples|] == samples;
    assert CanStage(s, b);
    StagedFlushFails(s, b);
  }

  lemma StagedFlushFails(s: Sys, b: Batch)
    requires Idle(s.m) && s.clk > 0 && s.m.life.state == Enabled && b.firstEnqueued == s.clk
    requires 0 < s.cfg.wireSize(b) <= MAX_BATCH_BYTES
    requires Works(s, 1) && s.env(s.tick + 1) == Fault(false, false, false)
    ensures var f := Flush(Stage(s, b, s.clk), s.clk);
            !f.ok && f.s.m == Stage(s, b, s.clk).m.(dirty := false) && f.s.disk.enqueued == s.disk.enqueued &&
            f.s.clk == s.clk && IntentSaved(s, f.s)
  {
    hide RevokePending, CompletePending;
    var staged := Stage(s, b, s.clk);
    assert ExpireLoss(staged, s.clk) == staged && !PendingExpired(staged.m, s.clk);
    var settled := Settle(staged);
    assert settled.ok && settled.s.m == staged.m.(dirty := false) && settled.s.tick == s.tick + 1;
    assert settled.s.disk.state == Some(ImageOf(staged.m)) && settled.s.env == s.env;
    var e := Enqueue(settled.s, b);
    assert e == R(settled.s.Tick(), false);
  }

  lemma StopExec(s: Sys)
    ensures Exec(s, DoStop).s == ExplicitStop(s)
  {
  }

  lemma PendingForgotten(s: Sys, samples: seq<Sample>, p: Promise)
    requires Inv(s, p) && OnlyPending(s, samples) && s.m.context.Bound()
    ensures Samples(s) == |samples| && Samples(ExplicitStop(s)) == 0
  {
    hide ExplicitStop, Good, MemOk, Strict;
    StopForgetsPending(s, p);
  }

  /** At most one batch of samples, all of it pending, and no loss counted. */
  predicate OnlyPending(s: Sys, samples: seq<Sample>) {
    && s.m.isOpen && s.disk.enqueued == [] && s.m.pending.Some? && s.m.pending.value.samples == samples
    && |samples| <= BATCH_LIMIT && s.m.boxOpen && !s.disk.blocked
    && s.disk.state.Some? && s.disk.state.value.pending == s.m.pending
    && s.m.lossFirst == s.m.droppedSamples == s.m.droppedBatches == s.m.notAuthorized == 0
  }

  function FirstCalls(clk: nat, id: Identity, producer: Producer, samples: seq<Sample>): seq<Step> {
    [Complete(clk, DoOpen(false)), Complete(clk, DoEnable(id, Some(producer))), Complete(clk, DoIngest(samples, 0))]
  }

  /**
   * The samples a stop forgets are reachable: open, enable, an ingest whose intent is saved while its outbox write
   * fails, then a stop. The samples were offered and authorized, and afterwards nothing accounts for them.
   */
  lemma StopCanForget(w: World, id: Identity, producer: Producer, samples: seq<Sample>)
    requires Pristine(w) && Works(w.s, 4) && w.s.env(w.s.tick + 4) == Fault(false, false, false)
    requires id.Valid() && HasNonzero(producer) && 1 <= |samples| <= BATCH_LIMIT
    requires 0 < w.s.cfg.wireSize(FirstBatch(w.s.clk, id, producer, samples)) <= MAX_BATCH_BYTES
    ensures var before := FirstCalls(w.s.clk, id, producer, samples);
            var steps := before + [Complete(w.s.clk, DoStop)];
            && AdmissibleRun(w, steps)
            && Samples(TelemetryRuns.Run(w, before).s) == |samples|
            && Samples(TelemetryRuns.Run(w, steps).s) == 0
  {
    hide AdmissibleRun, TelemetryRuns.Run, Exec, Inv, Good, RefusalsKept, HasNonzero;
    var clk := w.s.clk;
    var before, stop := FirstCalls(clk, id, producer, samples), Complete(clk, DoStop);
    ReachesPending(w, id, producer, samples);
    PristineOk(w);
    RunOk(w, before);
    var reached := TelemetryRuns.Run(w, before);
    RunThen(w, before, stop);
    BeginSafe(reached.s, clk, PromiseOf(reached));
    PendingForgotten(Begin(reached.s, clk), samples, PromiseOf(reached).(clk := clk));
    StopExec(Begin(reached.s, clk));
  }

  /** The first three calls of that run leave exactly the offered samples pending. */
  lemma ReachesPending(w: World, id: Identity, producer: Producer, samples: seq<Sample>)
    requires Pristine(w) && Works(w.s, 4) && w.s.env(w.s.tick + 4) == Fault(false, false, false)
    requires id.Valid() && HasNonzero(producer) && 1 <= |samples| <= BATCH_LIMIT
    requires 0 < w.s.cfg.wireSize(FirstBatch(w.s.clk, id, producer, samples)) <= MAX_BATCH_BYTES
    ensures var steps := FirstCalls(w.s.clk, id, producer, samples);
            var t := TelemetryRuns.Run(w, steps).s;
            AdmissibleRun(w, steps) && OnlyPending(t, samples) && t.m.context.Bound() && t.clk == w.s.clk &&
            t.tick == w.s.tick + 5 && t.env == w.s.env
  {
    hide Open, ServerEnable, Ingest, Identity.Valid, HasNonzero;
    var clk := w.s.clk;
    var open, enable := Complete(clk, DoOpen(false)), Complete(clk, DoEnable(id, Some(producer)));
    var ingest := Complete(clk, DoIngest(samples, 0));
    FirstOpen(Begin(w.s, clk));
    var w1 := Advance(w, open);
    assert Admissible(w, open) && Admissible(w1, enable);
    FirstEnable(Begin(w1.s, clk), id, producer);
    var w2 := Advance(w1, enable);
    FailedIngestStaysPending(Begin(w2.s, clk), samples);
    assert Admissible(w2, ingest);
    RunOfThree(w, open, enable, ingest);
    ValidIsBound(id);
  }

  /** The samples offered while open along a run of completed calls. */
  function OfferedAlong(w: World, steps: seq<Step>): nat
    decreases |steps|
  {
    if steps == [] then 0
    else Offers(Begin(w.s, steps[0].clk), steps[0].call) + OfferedAlong(Advance(w, steps[0]), steps[1..])
  }

  function GroupsAlong(w: World, steps: seq<Step>): nat
    decreases |steps|
  {
    if steps == [] then 0
    else Groups(Begin(w.s, steps[0].clk), steps[0].call) + GroupsAlong(Advance(w, steps[0]), steps[1..])
  }

  ghost predicate NoOpen(steps: seq<Step>) {
    forall i :: 0 <= i < |steps| ==> !steps[i].call.DoOpen?
  }

  /**
   * No crash, no stop over a pending batch, no new exam over counted losses, and no counter expiry or saturation along
   * the run.
   */
  predicate QuietRun(w: World, steps: seq<Step>)
    decreases |steps|
  {
    steps == [] ||
    (var s := Begin(w.s, steps[0].clk);
     var c := steps[0].call;
     steps[0].Complete? && ForgetsNothing(s, c) && NoExpiry(s, CallNow(s, c)) &&
     Fits(s, Offers(s, c), Ceiling(Offers(s, c))) &&
     QuietRun(Advance(w, steps[0]), steps[1..]))
  }

  /**
   * Conservation over runs: what was offered is what is enqueued, pending, dropped or not authorized at the end, and
   * authorized calls account for exactly one batch per started group of 32 samples. The run may close and open again
   * as often as it likes if opening loses nothing where it starts, which holds on a pristine machine.
   */
  lemma {:induction false} SamplesConserved(w: World, steps: seq<Step>)
    requires WorldOk(w) && AdmissibleRun(w, steps) && QuietRun(w, steps)
    requires Kept(w.s) || NoOpen(steps)
    ensures Samples(TelemetryRuns.Run(w, steps).s) == Samples(w.s) + OfferedAlong(w, steps)
    ensures Batches(TelemetryRuns.Run(w, steps).s) == Batches(w.s) + GroupsAlong(w, steps)
    decreases |steps|
  {
    hide SampleTotal, Exec, Inv, RefusalsKept;
    if steps != [] {
      var s := Begin(w.s, steps[0].clk);
      ExecAdmissible(w, steps[0]);
      var p := PromiseOf(w).(clk := steps[0].clk);
      CallConserves(s, steps[0].call, p);
      CompleteOk(w, steps[0]);
      if Kept(w.s) {
        CallKeeps(s, steps[0].call, p);
      }
      SamplesConserved(Advance(w, steps[0]), steps[1..]);
    }
  }

  /**
   * On a machine on which the service has never run: whatever is opened, closed, opened again, stopped and started
   * anew, the samples accounted for are exactly the samples offered while open.
   */
  lemma OfferedIsAccountedFor(w: World, steps: seq<Step>)
    requires Pristine(w) && AdmissibleRun(w, steps) && QuietRun(w, steps)
    ensures Samples(TelemetryRuns.Run(w, steps).s) == OfferedAlong(w, steps)
    ensures Batches(TelemetryRuns.Run(w, steps).s) == GroupsAlong(w, steps)
  {
    hide TelemetryRuns.Run, AdmissibleRun, QuietRun, OfferedAlong, GroupsAlong, WorldOk;
    PristineOk(w);
    SamplesConserved(w, steps);
  }
}
