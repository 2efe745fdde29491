/** What the batches of an ingest carry: the offered samples themselves, in order, for every pattern of failures. */
module TelemetryContents {
  import opened Bytes
  import opened Lifecycle
  import opened Outcomes
  import opened TelemetryModel
  import opened TelemetryInvariant
  import opened TelemetrySafety
  import opened TelemetryCalls
  import opened TelemetryRuns
  import opened TelemetryConservation
  import opened TelemetryRecovery

  /** All samples of a list of batches, in order. */
  function Contents(batches: seq<Batch>): seq<Sample> {
    if batches == [] then [] else Contents(batches[..|batches| - 1]) + batches[|batches| - 1].samples
  }

  function PendingContents(m: Mem): seq<Sample> {
    if m.pending.Some? then m.pending.value.samples else []
  }

  /** The batches that became durable between two states. */
  function Added(s: Sys, t: Sys): seq<Batch>
    requires s.disk.enqueued <= t.disk.enqueued
  {
    t.disk.enqueued[|s.disk.enqueued|..]
  }

  /** Group number `i` of 32 samples of a call, under the context, the producer and the sequences current before it. */
  predicate IsGroup(b: Batch, samples: seq<Sample>, i: nat, m: Mem) {
    && 32 * i < |samples| && b.samples == samples[32 * i..Min(32 * i + 32, |samples|)]
    && b.context == m.context && b.producer == m.producer && b.sequence == m.nextSeq + i
  }

  ghost predicate Grouped(batches: seq<Batch>, samples: seq<Sample>, m: Mem) {
    forall i :: 0 <= i < |batches| ==> IsGroup(batches[i], samples, i, m)
  }

  // ---- one batch ----

  /** A flush makes the pending batch durable, keeps it pending or gives it up. */
  ghost predicate Stored(s: Sys, b: Batch, r: R) {
    && (r.ok ==> r.s.disk.enqueued == s.disk.enqueued + [b] && r.s.m.pending.None? && r.s.m.nextSeq == s.m.nextSeq + 1)
    && (!r.ok ==> (r.s.disk.enqueued == s.disk.enqueued && (r.s.m.pending.None? || r.s.m.pending == Some(b))) ||
                  (r.s.disk.enqueued == s.disk.enqueued + [b] && r.s.m.pending.None?))
  }

  lemma FlushStores(s: Sys, now: nat, p: Promise)
    requires OpenOk(s, p) && Strict(s) && s.m.pending.Some?
    ensures Stored(s, s.m.pending.value, Flush(s, now))
  {
    hide OpenOk, Strict, Settle, FinishPending, RevokePending, Stored;
    var t := Now(s, now);
    ExpireLossSafe(s, t, p);
    var s1 := ExpireLoss(s, t);
    ExpireLossFrame(s, t);
    StrictOnDisk(s, s1);
    if PendingExpired(s1.m, t) {
      var o := s1.o.SetPending(RevokedExpired);
      ObserverIrrelevant(s1, o, p);
      StrictOnDisk(s, s1.(o := o));
      RevokeStores(s1.(o := o), t, p);
      StoredLater(s, s1.(o := o), s.m.pending.value, RevokePending(s1.(o := o), t));
    } else {
      SettleSafe(s1, p);
      SettleFrame(s1);
      var settled := Settle(s1);
      if settled.ok {
        FinishStores(settled.s, t, p);
        StoredLater(s, settled.s, s.m.pending.value, FinishPending(settled.s, t));
      } else {
        NotStored(s, settled);
      }
    }
  }

  lemma ExpireLossFrame(s: Sys, now: nat)
    ensures var t := ExpireLoss(s, now);
            t.disk == s.disk && t.m.pending == s.m.pending && t.m.nextSeq == s.m.nextSeq && t.m.cleanup == s.m.cleanup
  {
  }

  lemma NotStored(s: Sys, r: R)
    requires !r.ok && s.m.pending.Some? && r.s.disk.enqueued == s.disk.enqueued && r.s.m.pending == s.m.pending
    ensures Stored(s, s.m.pending.value, r)
  {
  }

  lemma StoredLater(s: Sys, t: Sys, b: Batch, r: R)
    requires t.disk.enqueued == s.disk.enqueued && t.m.nextSeq == s.m.nextSeq && Stored(t, b, r)
    ensures Stored(s, b, r)
  {
  }

  lemma RevokeStores(s: Sys, now: nat, p: Promise)
    requires OpenOk(s, p) && Strict(s) && s.m.pending.Some?
    ensures Stored(s, s.m.pending.value, RevokePending(s, now))
  {
    hide OpenOk, Strict, PersistRevocation, Revoking;
    RevokingSafe(s, now, p);
    RevokePendingSafe(s, now, p);
    var revoking := Revoking(s, now);
    var unobserved := revoking.(o := revoking.o.(stop := None));
    ObserverIrrelevant(revoking, unobserved.o, p);
    StrictOnDisk(revoking, unobserved);
    RevokingCleans(s, now);
    PersistRevocationSafe(unobserved, now, p);
  }

  lemma RevokingCleans(s: Sys, now: nat)
    ensures Revoking(s, now).m.cleanup && Revoking(s, now).m.pending.None?
  {
    hide CountDropped;
  }

  lemma FinishStores(s: Sys, now: nat, p: Promise)
    requires OpenOk(s, p) && Strict(s) && s.m.pending.Some? && !s.m.cleanup
    ensures Stored(s, s.m.pending.value, FinishPending(s, now))
  {
    hide OpenOk, Strict, Enqueue, CompletePending, RevokePending, FindBatch, LossOf;
    StrictIsUnstored(s, p);
    var b := s.m.pending.value;
    if LossOf(s.m.box.losses, b.context.sessionId).expired != 0 {
      var o := s.o.SetPending(RevokedAgeUncertain);
      ObserverIrrelevant(s, o, p);
      StrictOnDisk(s, s.(o := o));
      RevokeStores(s.(o := o), Now(s, now), p);
    } else {
      EnqueueConserves(s);
      var e := Enqueue(s, b);
      assert OutboxOnly(s, e.s);
      if e.ok {
        CompletePendingFrame(e.s);
        CompletePendingCounts(e.s);
      }
    }
  }

  lemma CompletePendingCounts(s: Sys)
    ensures CompletePending(s).s.m.nextSeq == s.m.nextSeq + 1
  {
  }

  // ---- the loop ----

  /** What an ingest of `samples` has made of a state with nothing pending. */
  ghost predicate Carries(s: Sys, r: R, samples: seq<Sample>) {
    && s.disk.enqueued <= r.s.disk.enqueued
    && Grouped(Added(s, r.s), samples, s.m)
    && (r.s.m.pending.Some? ==> IsGroup(r.s.m.pending.value, samples, |Added(s, r.s)|, s.m))
    && (r.ok ==> r.s.m.pending.None? && 32 * |Added(s, r.s)| >= |samples|)
  }

  lemma NothingAdded(s: Sys, r: R, samples: seq<Sample>)
    requires r.s.disk.enqueued == s.disk.enqueued && r.s.m.pending.None? && (r.ok ==> samples == [])
    ensures Carries(s, r, samples)
  {
  }

  lemma DropRemainingAdds(s: Sys, samples: seq<Sample>, more: nat, now: nat, p: Promise)
    requires OpenOk(s, p) && Strict(s) && s.m.pending.None?
    ensures Carries(s, R(DropRemaining(s, more, now), false), samples)
  {
    hide OpenOk, Strict, DropRemaining;
    DropRemainingSafe(s, more, now, p);
    NothingAdded(s, R(DropRemaining(s, more, now), false), samples);
  }

  lemma DropTailAdds(s: Sys, more: nat, now: nat)
    ensures var t := DropTail(s, more, now);
            t.disk.enqueued == s.disk.enqueued && t.m.pending == s.m.pending
  {
    hide CountDropped, WriteState, Ceiling;
    if more != 0 {
      CountDroppedAdds(s, more, Ceiling(more), now);
      var c := CountDropped(s, more, Ceiling(more), now);
      WriteStateFrame(c.(m := c.m.(dirty := true)));
    }
  }

  lemma CountDroppedAdds(s: Sys, samples: nat, batches: nat, now: nat)
    ensures var c := CountDropped(s, samples, batches, now);
            c.disk == s.disk && c.m.pending == s.m.pending
  {
    hide ExpiredAt, AddSaturated;
  }

  lemma TailStartsWith(a: seq<Batch>, b: Batch, c: seq<Batch>)
    requires a + [b] <= c
    ensures a <= c && c[|a|..] == [b] + c[|a| + 1..]
  {
    assert c[|a|] == (a + [b])[|a|];
  }

  lemma SlicedLater(samples: seq<Sample>, from: nat, to: nat)
    requires 32 <= |samples| && from <= to <= |samples| - 32
    ensures samples[32..][from..to] == samples[from + 32..to + 32]
  {
  }

  /** The first group, and everything that follows when it has become durable. */
  lemma GroupThenRest(s: Sys, b: Batch, f: Sys, r: R, samples: seq<Sample>)
    requires samples != [] && IsGroup(b, samples, 0, s.m)
    requires f.disk.enqueued == s.disk.enqueued + [b] && f.m.nextSeq == s.m.nextSeq + 1
    requires f.m.context == s.m.context && f.m.producer == s.m.producer
    requires Carries(f, r, samples[Min(|samples|, 32)..])
    ensures Carries(s, r, samples)
  {
    var n := Min(|samples|, 32);
    var rest := samples[n..];
    var added := Added(s, r.s);
    TailStartsWith(s.disk.enqueued, b, r.s.disk.enqueued);
    assert added == [b] + Added(f, r.s);
    forall c: Batch, i: nat | IsGroup(c, rest, i, f.m)
      ensures IsGroup(c, samples, i + 1, s.m)
    {
      SlicedLater(samples, 32 * i, Min(32 * i + 32, |rest|));
    }
  }

  /** The first group did not get through. */
  lemma GroupStuck(s: Sys, b: Batch, f: R, t: Sys, samples: seq<Sample>)
    requires samples != [] && IsGroup(b, samples, 0, s.m) && !f.ok && Stored(s, b, f)
    requires t.disk.enqueued == f.s.disk.enqueued && t.m.pending == f.s.m.pending
    ensures Carries(s, R(t, false), samples)
  {
    if t.disk.enqueued == s.disk.enqueued + [b] {
      assert Added(s, t) == [b];
    } else {
      assert Added(s, t) == [];
    }
  }

  lemma {:induction false} IngestLoopContents(s: Sys, samples: seq<Sample>, now: nat, p: Promise)
    requires OpenOk(s, p) && Strict(s) && Settled(s.m) && s.m.life.state == Enabled && now > 0
    ensures Carries(s, IngestLoop(s, samples, now), samples)
    decreases |samples|
  {
    hide OpenOk, Strict, DropRemaining, DropTail, Flush, CanStage, Carries, Stored;
    if samples == [] {
      NothingAdded(s, R(s, true), samples);
    } else {
      var n := Min(|samples|, BATCH_LIMIT);
      var b := NextBatch(s, samples[..n], now);
      if !CanStage(s, b) {
        DropRemainingAdds(s, samples, |samples|, now, p);
      } else {
        var staged := Stage(s, b, now);
        StageSafe(s, b, now, p);
        FlushStores(staged, now, p);
        FlushSafe(staged, now, p);
        StagedStores(s, b, now);
        assert IsGroup(b, samples, 0, s.m);
        var f := Flush(staged, now);
        if f.ok {
          IngestLoopContents(f.s, samples[n..], now, p);
          StoredFacts(s, b, f);
          GroupThenRest(s, b, f.s, IngestLoop(f.s, samples[n..], now), samples);
        } else {
          DropTailAdds(f.s, |samples| - n, now);
          GroupStuck(s, b, f, DropTail(f.s, |samples| - n, now), samples);
        }
      }
    }
  }

  lemma StagedStores(s: Sys, b: Batch, now: nat)
    requires Stored(Stage(s, b, now), b, Flush(Stage(s, b, now), now))
    ensures Stored(s, b, Flush(Stage(s, b, now), now))
  {
    hide Flush;
  }

  lemma StoredFacts(s: Sys, b: Batch, r: R)
    requires Stored(s, b, r) && r.ok
    ensures r.s.disk.enqueued == s.disk.enqueued + [b] && r.s.m.nextSeq == s.m.nextSeq + 1
  {
  }

  lemma FirstFlush(s: Sys, f: Sys, r: R, samples: seq<Sample>)
    requires Carries(f, r, samples) && f.disk.enqueued == s.disk.enqueued && f.m.nextSeq == s.m.nextSeq
    requires f.m.context == s.m.context && f.m.producer == s.m.producer
    ensures Carries(s, r, samples)
  {
    assert forall b, i: nat :: IsGroup(b, samples, i, f.m) ==> IsGroup(b, samples, i, s.m);
  }

  /** Every authorized ingest carries the offered samples in groups of 32, from the first one on and without a gap. */
  lemma IngestCarries(s: Sys, samples: seq<Sample>, now: nat, p: Promise)
    requires Inv(s, p) && s.m.isOpen && s.m.life.state == Enabled && s.m.pending.None?
    ensures Carries(s, Ingest(s, samples, now), samples)
  {
    hide MemOk, Strict, DropRemaining, Flush, IngestLoop, Good, Carries;
    ClockRuns(s, p);
    if samples == [] {
      NothingAdded(s, Ingest(s, samples, now), samples);
    } else {
      var t := Now(s, now);
      FlushSafe(s, t, p);
      var f := Flush(s, t);
      if f.ok {
        IngestLoopContents(f.s, samples, t, p);
        FirstFlush(s, f.s, IngestLoop(f.s, samples, t), samples);
      } else {
        DropRemainingAdds(f.s, samples, |samples|, t, p);
        FirstFlush(s, f.s, R(DropRemaining(f.s, |samples|, t), false), samples);
      }
    }
  }

  // ---- the samples themselves ----

  lemma {:induction false} GroupsConcatenate(batches: seq<Batch>, samples: seq<Sample>, m: Mem)
    requires Grouped(batches, samples, m)
    ensures Contents(batches) == samples[..Min(32 * |batches|, |samples|)]
    decreases |batches|
  {
    hide IsGroup;
    if batches != [] {
      var k := |batches| - 1;
      GroupsConcatenate(batches[..k], samples, m);
      GroupAppends(batches[k], samples, k, m);
    }
  }

  lemma GroupAppends(b: Batch, samples: seq<Sample>, k: nat, m: Mem)
    requires IsGroup(b, samples, k, m)
    ensures samples[..Min(32 * k, |samples|)] + b.samples == samples[..Min(32 * (k + 1), |samples|)]
  {
    assert Min(32 * k, |samples|) == 32 * k;
  }

  /**
   * For every pattern of storage failures: the samples that an authorized ingest made durable, followed by those it
   * left pending, are a prefix of the samples offered, batch after batch under consecutive sequences of the current
   * producer and context; a call that succeeds has made all of them durable.
   */
  lemma IngestContents(s: Sys, samples: seq<Sample>, now: nat, p: Promise)
    requires Inv(s, p) && s.m.isOpen && s.m.life.state == Enabled && s.m.pending.None?
    ensures var r := Ingest(s, samples, now);
            && s.disk.enqueued <= r.s.disk.enqueued
            && Contents(Added(s, r.s)) + PendingContents(r.s.m) <= samples
            && (r.ok ==> r.s.m.pending.None? && Contents(Added(s, r.s)) == samples)
            && forall i :: 0 <= i < |Added(s, r.s)| ==>
                             var b := Added(s, r.s)[i];
                             && b.context == s.m.context && b.producer == s.m.producer
                             && b.sequence == s.m.nextSeq + i && 1 <= |b.samples| <= 32
  {
    hide Ingest, MemOk, Good, Strict;
    IngestCarries(s, samples, now, p);
    var r := Ingest(s, samples, now);
    var added := Added(s, r.s);
    GroupsConcatenate(added, samples, s.m);
    if r.s.m.pending.Some? {
      GroupAppends(r.s.m.pending.value, samples, |added|, s.m);
    }
    forall i | 0 <= i < |added|
      ensures 1 <= |added[i].samples| <= 32
    {
      assert IsGroup(added[i], samples, i, s.m);
    }
  }

  lemma {:induction false} TotalIsLength(before: seq<Batch>, added: seq<Batch>)
    ensures SampleTotal(before + added) == SampleTotal(before) + |Contents(added)|
    decreases |added|
  {
    if added == [] {
      assert before + added == before;
    } else {
      var k := |added| - 1;
      TotalIsLength(before, added[..k]);
      assert before + added == (before + added[..k]) + [added[k]];
      SampleTotalPush(before + added[..k], added[k]);
    }
  }

  /** That prefix is as long as it can be: what it lacks was counted as dropped, one by one. */
  lemma IngestLosesOnlyTheCounted(s: Sys, samples: seq<Sample>, now: nat, p: Promise)
    requires Inv(s, p) && s.m.isOpen && s.m.life.state == Enabled && s.m.pending.None?
    requires NoExpiry(s, Now(s, now)) && Fits(s, |samples|, Ceiling(|samples|))
    ensures var t := Ingest(s, samples, now).s;
            && s.disk.enqueued <= t.disk.enqueued
            && |Contents(Added(s, t)) + PendingContents(t.m)| + (t.m.droppedSamples + t.m.notAuthorized) ==
               |samples| + (s.m.droppedSamples + s.m.notAuthorized)
  {
    hide Ingest, MemOk, Good, Strict, SampleTotal, NoExpiry, Ceiling;
    IngestContents(s, samples, now, p);
    IngestConserves(s, samples, now, p);
    var t := Ingest(s, samples, now).s;
    assert t.disk.enqueued == s.disk.enqueued + Added(s, t);
    TotalIsLength(s.disk.enqueued, Added(s, t));
  }

  // ---- an ingest that succeeds ----

  /** Room for so many more batches of any content, none of the stored ones having expired uncounted. */
  ghost predicate Room(s: Sys, batches: nat) {
    && s.m.nextSeq + batches <= U64_MAX && |s.m.box.records| + batches <= MAX_OUTBOX_BATCHES
    && BoxBytes(s.cfg, s.m.box.records) + batches * MAX_BATCH_BYTES <= MAX_OUTBOX_BYTES
    && LossOf(s.m.box.losses, s.m.context.sessionId).expired == 0
  }

  /** The batch codec accepts every batch of 1 to 32 samples. */
  ghost predicate Encodes(cfg: Config) {
    forall b: Batch :: 1 <= |b.samples| <= 32 ==> 0 < cfg.wireSize(b) <= MAX_BATCH_BYTES
  }

  lemma {:induction false} BoxBytesPush(cfg: Config, records: seq<Record>, r: Record)
    ensures BoxBytes(cfg, records + [r]) == BoxBytes(cfg, records) + cfg.wireSize(r.batch)
  {
    if records == [] {
      assert records + [r] == [r];
    } else {
      assert (records + [r])[1..] == records[1..] + [r];
      BoxBytesPush(cfg, records[1..], r);
    }
  }

  /** A pending batch that is young and fits gets through a flush on working storage. */
  lemma FlushGetsThrough(s: Sys, now: nat, p: Promise)
    requires OpenOk(s, p) && Strict(s) && s.m.pending.Some? && s.m.boxOpen && !s.m.cleanup && Working(s)
    requires !PendingExpired(s.m, Now(s, now)) && CanEnqueue(s.cfg, s.m.box.records, s.m.pending.value)
    requires LossOf(s.m.box.losses, s.m.pending.value.context.sessionId).expired == 0
    ensures var f := Flush(s, now);
            && f.ok && Working(f.s) && f.s.clk == s.clk && f.s.cfg == s.cfg
            && f.s.m.box == s.m.box.(records := s.m.box.records + [Record(s.m.pending.value, s.clk)])
  {
    hide OpenOk, Strict, Settle, FinishPending, CanEnqueue, FindBatch, RevokePending, LossOf, PendingExpired;
    var t := Now(s, now);
    var s1 := ExpireLoss(s, t);
    ExpireLossSafe(s, t, p);
    ExpireLossOnlyCounts(s, t);
    StrictOnDisk(s, s1);
    PendingEncodes(s1, p);
    SettleWorks(s1);
    SettleSafe(s1, p);
    SettleFrame(s1);
    FinishGetsThrough(Settle(s1).s, t, p);
  }

  lemma ExpireLossOnlyCounts(s: Sys, now: nat)
    ensures var t := ExpireLoss(s, now);
            && t.env == s.env && t.tick == s.tick && t.cfg == s.cfg && t.clk == s.clk && t.disk == s.disk
            && t.m.pending == s.m.pending && t.m.box == s.m.box && t.m.boxOpen == s.m.boxOpen
            && t.m.cleanup == s.m.cleanup && t.m.nextSeq == s.m.nextSeq
            && (PendingExpired(t.m, now) <==> PendingExpired(s.m, now))
  {
  }

  lemma FinishGetsThrough(s: Sys, now: nat, p: Promise)
    requires OpenOk(s, p) && Strict(s) && s.m.pending.Some? && s.m.boxOpen && !s.m.cleanup && Working(s)
    requires CanEnqueue(s.cfg, s.m.box.records, s.m.pending.value)
    requires LossOf(s.m.box.losses, s.m.pending.value.context.sessionId).expired == 0
    ensures var f := FinishPending(s, now);
            && f.ok && Working(f.s) && f.s.clk == s.clk && f.s.cfg == s.cfg
            && f.s.m.box == s.m.box.(records := s.m.box.records + [Record(s.m.pending.value, s.clk)])
  {
    hide OpenOk, Strict, CanEnqueue, FindBatch, LossOf;
    StrictIsUnstored(s, p);
    var e := Enqueue(s, s.m.pending.value);
    assert e.ok && Working(e.s);
    CompleteWorks(e.s);
    CompleteKeepsBox(e.s);
  }

  lemma CompleteKeepsBox(s: Sys)
    requires Working(s)
    ensures var r := CompletePending(s);
            Working(r.s) && r.s.clk == s.clk && r.s.cfg == s.cfg && r.s.m.box == s.m.box
  {
  }

  /** A next group of samples always fits where there is room. */
  lemma NextFits(s: Sys, b: Batch, now: nat, p: Promise)
    requires OpenOk(s, p) && Strict(s) && Settled(s.m) && Room(s, 1) && Encodes(s.cfg)
    requires 1 <= |b.samples| <= 32 && b == NextBatch(s, b.samples, now)
    ensures s.m.boxOpen && CanStage(s, b) && CanEnqueue(s.cfg, s.m.box.records, b)
  {
    var records := s.m.box.records;
    forall i | 0 <= i < |records|
      ensures records[i].batch.context == s.m.context && records[i].batch.sequence < s.m.nextSeq
    {
      assert records[i] in Records(s.disk);
    }
  }

  lemma RoomAfter(s: Sys, t: Sys, b: Batch, batches: nat)
    requires Room(s, batches + 1) && Encodes(s.cfg) && 1 <= |b.samples| <= 32
    requires t.cfg == s.cfg && t.m.nextSeq == s.m.nextSeq + 1 && t.m.context == s.m.context
    requires t.m.box == s.m.box.(records := s.m.box.records + [Record(b, s.clk)])
    ensures Room(t, batches)
  {
    BoxBytesPush(s.cfg, s.m.box.records, Record(b, s.clk));
  }

  lemma StagedIsYoung(s: Sys, b: Batch, now: nat)
    requires 0 < now < s.clk + RETENTION_MS && s.clk > 0 && b == NextBatch(s, b.samples, now)
    ensures !PendingExpired(Stage(s, b, now).m, now)
  {
  }

  lemma {:induction false} IngestLoopSucceeds(s: Sys, samples: seq<Sample>, now: nat, p: Promise)
    requires OpenOk(s, p) && Strict(s) && Settled(s.m) && s.m.life.state == Enabled && Working(s)
    requires 0 < now < s.clk + RETENTION_MS && s.clk > 0 && Room(s, Ceiling(|samples|)) && Encodes(s.cfg)
    ensures IngestLoop(s, samples, now).ok
    decreases |samples|
  {
    hide OpenOk, Strict, DropRemaining, DropTail, Flush, CanStage, Room, Encodes, Ceiling, CanEnqueue, PendingExpired;
    if samples != [] {
      CeilingSplits(|samples|);
      var n := Min(|samples|, BATCH_LIMIT);
      var b := NextBatch(s, samples[..n], now);
      LessRoom(s, Ceiling(|samples|));
      NextFits(s, b, now, p);
      var staged := Stage(s, b, now);
      StageSafe(s, b, now, p);
      StagedIsYoung(s, b, now);
      NothingInDoubt(s, Ceiling(|samples|));
      FlushGetsThrough(staged, now, p);
      FlushStores(staged, now, p);
      FlushSafe(staged, now, p);
      var f := Flush(staged, now);
      RoomAfter(s, f.s, b, Ceiling(|samples| - n));
      IngestLoopSucceeds(f.s, samples[n..], now, p);
    }
  }

  lemma LessRoom(s: Sys, batches: nat)
    requires Room(s, batches) && batches >= 1
    ensures Room(s, 1)
  {
  }

  lemma NothingInDoubt(s: Sys, batches: nat)
    requires Room(s, batches)
    ensures LossOf(s.m.box.losses, s.m.context.sessionId).expired == 0
  {
  }

  /**
   * With working storage, room for its batches and a clock within retention, an authorized ingest succeeds, and every
   * sample offered is durable afterwards.
   */
  lemma IngestSucceeds(s: Sys, samples: seq<Sample>, now: nat, p: Promise)
    requires Inv(s, p) && s.m.isOpen && s.m.life.state == Enabled && s.m.pending.None? && Working(s)
    requires Now(s, now) < s.clk + RETENTION_MS && Room(s, Ceiling(|samples|)) && Encodes(s.cfg)
    ensures var r := Ingest(s, samples, now);
            r.ok && s.disk.enqueued <= r.s.disk.enqueued && Contents(Added(s, r.s)) == samples
  {
    hide MemOk, Strict, DropRemaining, IngestLoop, Good, Room, Flush, Ceiling, Encodes;
    IngestContents(s, samples, now, p);
    ClockRuns(s, p);
    if samples != [] {
      var t := Now(s, now);
      FlushSafe(s, t, p);
      EmptyFlushWorks(s, t, p);
      var f := Flush(s, t).s;
      SameRoom(s, f, Ceiling(|samples|));
      IngestLoopSucceeds(f, samples, t, p);
    }
  }

  lemma EmptyFlushWorks(s: Sys, now: nat, p: Promise)
    requires Inv(s, p) && s.m.isOpen && s.m.life.state == Enabled && s.m.pending.None? && Working(s)
    ensures var f := Flush(s, now);
            f.ok && Working(f.s) && f.s.m.box == s.m.box && f.s.cfg == s.cfg && f.s.clk == s.clk
  {
    hide Settle, MemOk, Good, Strict;
    var s1 := ExpireLoss(s, Now(s, now));
    ExpireLossOnlyCounts(s, Now(s, now));
    EnabledIsOpen(s, p);
    SettleWorks(s1);
    assert FinishPending(Settle(s1).s, Now(s, now)) == R(Settle(s1).s, true) by { SettleFrame(s1); }
  }

  lemma EnabledIsOpen(s: Sys, p: Promise)
    requires OpenOk(s, p) && s.m.life.state == Enabled
    ensures s.m.boxOpen && !s.m.cleanup
  {
    hide Good, Tracked, ArchiveOk;
  }

  lemma SameRoom(s: Sys, t: Sys, batches: nat)
    requires Room(s, batches) && t.cfg == s.cfg && t.m.nextSeq == s.m.nextSeq && t.m.context == s.m.context
    requires t.m.box == s.m.box
    ensures Room(t, batches)
  {
  }
}
