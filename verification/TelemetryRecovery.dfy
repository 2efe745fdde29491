/** When an open succeeds after a crash or a restart, and when none ever will again. */
module TelemetryRecovery {
  import opened Bytes
  import opened Lifecycle
  import opened Outcomes
  import opened TelemetryModel
  import opened TelemetryInvariant
  import opened TelemetrySafety
  import opened TelemetryCalls
  import opened TelemetryRuns
  import opened TelemetryConservation

  /** Storage that does not fail from now on. */
  ghost predicate Working(s: Sys) {
    forall t :: t >= s.tick ==> s.env(t) == Fault(true, false, false)
  }

  // ---- what an open finds ----

  /** The outbox an open will hold: what a scrub marker condemns is gone, and what has expired is counted as lost. */
  function BoxToLoad(s: Sys): Box {
    if s.disk.scrubMarker || s.disk.outbox.None? then EMPTY_BOX
    else if NothingExpired(s.disk.outbox.value, s.clk) then s.disk.outbox.value
    else PruneBox(s.disk.outbox.value, s.clk, s.clk)
  }

  /** A saved intent can be finished: its batch is stored already, or it is young, not in doubt, and there is room. */
  predicate Resumes(cfg: Config, b: Batch, box: Box, clk: nat) {
    FindBatch(box.records, b.producer, b.sequence) < |box.records| ||
    (clk - b.firstEnqueued < RETENTION_MS && LossOf(box.losses, b.context.sessionId).expired == 0 &&
     CanEnqueue(cfg, box.records, b))
  }

  /**
   * No refusal marker, no condemned outbox in memory, and no intent that cannot be finished: its outbox file must
   * exist, must not be past retention, and must let it resume.
   */
  predicate Openable(s: Sys, stale: bool) {
    && !s.disk.blocked && !s.m.scrubPending
    && match s.disk.state
       case None => s.m.pending.None?
       case Some(img) =>
         img.pending.None? ||
         (!stale && s.disk.outbox.Some? && Resumes(s.cfg, img.pending.value, BoxToLoad(s), s.clk))
  }

  // ---- every step on working storage ----

  lemma PruneWorks(s: Sys, now: nat)
    requires Working(s)
    ensures var r := Prune(s, now);
            r.ok && Working(r.s) &&
            r.s.m.box == if NothingExpired(s.m.box, now) then s.m.box else PruneBox(s.m.box, now, s.clk)
  {
    hide NothingExpired, PruneBox;
  }

  /** The outbox opens unless memory still holds a condemned one. */
  lemma OpenBoxWorks(s: Sys, stale: bool)
    requires Working(s)
    ensures var b := OpenBox(s, stale);
            (b.ok <==> !s.m.scrubPending) && Working(b.s) &&
            (b.ok ==> b.s.m.box == if stale then EMPTY_BOX else BoxToLoad(s))
  {
    hide NothingExpired, PruneBox, Prune;
    var closed := CloseBox(s);
    if !s.m.scrubPending {
      var aged := RemoveAged(closed, stale);
      assert aged.ok && Working(aged.s);
      var scrubbed := Scrub(aged.s);
      assert scrubbed.ok && Working(scrubbed.s);
      if scrubbed.s.disk.outbox.Some? {
        PruneWorks(scrubbed.s.Tick().(m := scrubbed.s.m.(boxOpen := true, box := scrubbed.s.disk.outbox.value)), s.clk);
      }
    }
  }

  lemma WriteStateWorks(s: Sys)
    requires Working(s) && (s.m.pending.Some? ==> s.cfg.wireSize(s.m.pending.value) > 0)
    ensures WriteState(s).ok && Working(WriteState(s).s)
  {
  }

  lemma CleanUpWorks(s: Sys)
    requires Working(s) && s.m.boxOpen
    ensures CleanUp(s).ok && Working(CleanUp(s).s)
  {
    var purged := Purge(s);
    assert Reopen(s) == R(s, true) && purged.ok && Working(purged.s);
    hide Purge, Reopen;
    UnblockWorks(purged.s);
    assert CleanUp(s) == Unblock(purged.s);
  }

  lemma UnblockWorks(s: Sys)
    requires Working(s)
    ensures Unblock(s).ok && Working(Unblock(s).s)
  {
  }

  lemma SettleWorks(s: Sys)
    requires Working(s) && s.m.boxOpen && (s.m.pending.Some? ==> s.cfg.wireSize(s.m.pending.value) > 0)
    ensures Settle(s).ok && Working(Settle(s).s)
    ensures !s.m.cleanup ==> Settle(s).s.m == s.m.(dirty := Settle(s).s.m.dirty)
    ensures Settle(s).s.cfg == s.cfg && Settle(s).s.clk == s.clk
  {
    hide CleanUp, WriteState;
    WriteStateWorks(s);
    var published := if s.m.dirty then Publish(s) else R(s, true);
    assert WriteState(s).s.m == s.m.(dirty := WriteState(s).s.m.dirty) && WriteState(s).s.cfg == s.cfg &&
           WriteState(s).s.clk == s.clk by {
      WriteStateFrame(s);
      WriteStateConfig(s);
    }
    CleanUpWorks(published.s);
    CleanUpConfig(published.s);
  }

  lemma WriteStateConfig(s: Sys)
    ensures WriteState(s).s.cfg == s.cfg
  {
  }

  lemma CleanUpConfig(s: Sys)
    ensures CleanUp(s).s.cfg == s.cfg && CleanUp(s).s.clk == s.clk
  {
    hide Reopen, Purge;
    assert BoxFrame(s, Reopen(s).s) && BoxFrame(Reopen(s).s, Purge(Reopen(s).s).s);
  }

  lemma CompleteWorks(s: Sys)
    requires Working(s)
    ensures CompletePending(s).ok
  {
  }

  /** On working storage the pending intent is finished exactly when it is stored, or neither in doubt nor too big. */
  lemma FinishIff(s: Sys, now: nat, p: Promise)
    requires OpenOk(s, p) && Working(s) && s.m.boxOpen && s.m.pending.Some?
    ensures var b := s.m.pending.value;
            FinishPending(s, now).ok <==>
            FindBatch(s.m.box.records, b.producer, b.sequence) < |s.m.box.records| ||
            (LossOf(s.m.box.losses, b.context.sessionId).expired == 0 && CanEnqueue(s.cfg, s.m.box.records, b))
  {
    hide OpenOk, CompletePending, RevokePending, FindBatch, LossOf, CanEnqueue;
    var b := s.m.pending.value;
    var i := FindBatch(s.m.box.records, b.producer, b.sequence);
    if i < |s.m.box.records| {
      FoundIsPending(s, i, p);
      CompleteWorks(s);
    } else if LossOf(s.m.box.losses, b.context.sessionId).expired != 0 {
      NeverFinished(s.(o := s.o.SetPending(RevokedAgeUncertain)), Now(s, now));
    } else if CanEnqueue(s.cfg, s.m.box.records, b) {
      CompleteWorks(Enqueue(s, b).s);
    }
  }

  lemma NeverFinished(s: Sys, now: nat)
    requires s.m.pending.Some?
    ensures !RevokePending(s, now).ok
  {
    hide PersistRevocation, Revoking;
  }

  /** The same for a whole flush: on top, the intent must not be past retention. */
  lemma FlushIff(s: Sys, p: Promise)
    requires OpenOk(s, p) && Working(s) && s.m.boxOpen
    requires forall r :: r in s.m.box.records ==> !RecordExpired(r, s.clk)
    ensures Flush(s, 0).ok <==> s.m.pending.None? || Resumes(s.cfg, s.m.pending.value, s.m.box, s.clk)
  {
    hide OpenOk, Settle, FinishPending, RevokePending, FindBatch, LossOf, CanEnqueue, PendingExpired, ExpireLoss;
    var s1 := ExpireLoss(s, s.clk);
    ExpireLossKeeps(s, p);
    ExpireLossSafe(s, s.clk, p);
    YoungIff(s, p);
    if PendingExpired(s1.m, s.clk) {
      NeverFinished(s1.(o := s1.o.SetPending(RevokedExpired)), s.clk);
    } else {
      if s.m.pending.Some? {
        PendingEncodes(s1, p);
      }
      SettleWorks(s1);
      SettleSafe(s1, p);
      SettleFrame(s1);
      var settled := Settle(s1).s;
      if s.m.pending.Some? {
        FinishIff(settled, s.clk, p);
      } else {
        NothingToFinish(settled, s.clk);
      }
    }
  }

  lemma NothingToFinish(s: Sys, now: nat)
    requires s.m.pending.None?
    ensures FinishPending(s, now).ok
  {
  }

  lemma ExpireLossKeeps(s: Sys, p: Promise)
    requires OpenOk(s, p)
    ensures var t := ExpireLoss(s, s.clk);
            && t.env == s.env && t.tick == s.tick && t.cfg == s.cfg && t.clk == s.clk && t.disk == s.disk
            && t.m.pending == s.m.pending && t.m.box == s.m.box && t.m.boxOpen == s.m.boxOpen
            && t.m.cleanup == s.m.cleanup && (PendingExpired(t.m, s.clk) <==> PendingExpired(s.m, s.clk))
            && (s.m.pending.Some? ==> !s.m.cleanup)
  {
    hide Good, Tracked, ArchiveOk;
  }

  lemma PendingEncodes(s: Sys, p: Promise)
    requires OpenOk(s, p) && s.m.pending.Some?
    ensures s.cfg.wireSize(s.m.pending.value) > 0
  {
    hide Good, Tracked, ArchiveOk;
  }

  /** A pending intent is given up for its age exactly when it is past retention, and never while it is stored. */
  lemma YoungIff(s: Sys, p: Promise)
    requires OpenOk(s, p) && s.m.boxOpen && (forall r :: r in s.m.box.records ==> !RecordExpired(r, s.clk))
    ensures PendingExpired(s.m, s.clk) ==> s.m.pending.Some?
    ensures s.m.pending.Some? ==>
              var b := s.m.pending.value;
              && (PendingExpired(s.m, s.clk) <==> s.clk - b.firstEnqueued >= RETENTION_MS)
              && (FindBatch(s.m.box.records, b.producer, b.sequence) < |s.m.box.records| ==>
                    !PendingExpired(s.m, s.clk))
  {
    if s.m.pending.Some? {
      KeptPendingIsYoung(s, p);
      var b := s.m.pending.value;
      var i := FindBatch(s.m.box.records, b.producer, b.sequence);
      if i < |s.m.box.records| {
        StoredIsNotStrict(s, i, p);
      }
      hide Good, Tracked, ArchiveOk, FindBatch, RecordExpired, Strict;
    }
  }

  lemma StoredIsNotStrict(s: Sys, i: nat, p: Promise)
    requires OpenOk(s, p) && s.m.boxOpen && s.m.pending.Some? && i < |s.m.box.records|
    requires s.m.box.records[i].batch.sequence == s.m.pending.value.sequence
    ensures !Strict(s)
  {
    hide Good, Tracked, ArchiveOk;
    assert s.m.box.records[i] in Records(s.disk);
  }

  // ---- when an open succeeds ----

  /** Once state and outbox path are known, an open goes on exactly when the intent, if any, can be finished. */
  lemma OpenLoadedIff(s: Sys, stale: bool, p: Promise)
    requires Safe(s, p) && Loaded(s) && Working(s)
    ensures OpenLoaded(s, stale).result == Opened <==>
            && !s.m.scrubPending
            && (s.m.pending.None? ||
                (!stale && Resumes(s.cfg, s.m.pending.value, BoxToLoad(s), s.clk)))
  {
    hide Good, MemOk, OpenBox, Flush, RevokePending, RecordExpired, Consistent, BoxToLoad, Resumes, Strict;
    OpenBoxSteps(s, stale, p);
    OpenBoxWorks(s, stale);
    var b := OpenBox(s, stale);
    if b.ok {
      ReadySafe(s, b.s, p);
      var ready := b.s.(m := b.s.m.(isOpen := true, cleanup := b.s.m.life.state == Revoked));
      ReadyConsistent(ready, p);
      if !(s.m.pending.Some? && stale) {
        FlushIff(ready, p);
      }
    }
  }

  /**
   * Exactly when an open of a closed coordinator succeeds on working storage, for every state that any run can leave:
   * a condition on the saved state, the outbox and the marker that can be read off before the call.
   */
  lemma OpensIff(s: Sys, stale: bool, p: Promise)
    requires Inv(s, p) && !s.m.isOpen && Working(s)
    ensures Open(s, stale).result == Opened <==> Openable(s, stale)
  {
    hide Good, MemOk, Strict, OpenLoaded, LoadImage, Resumes, BoxToLoad;
    var s1 := s.(m := s.m.(pathKnown := true));
    BoxDependsOnDisk(s, s1);
    if !s.disk.blocked {
      if s.disk.state.Some? {
        SavedOpens(s1, stale, p);
      } else {
        UnexplainedOutbox(s1, p);
        if s.m.pending.None? {
          FreshOpens(s1, stale, p);
        }
      }
    }
  }

  lemma SavedOpens(s: Sys, stale: bool, p: Promise)
    requires Safe(s, p) && !s.m.isOpen && Working(s) && !s.disk.blocked && s.disk.state.Some?
    ensures OpenSaved(s, s.disk.state.value, stale).result == Opened <==> Openable(s, stale)
  {
    hide Tracked, History, ArchiveOk, OpenLoaded, MemOk, Strict, LoadImage, Resumes, BoxToLoad;
    var img := s.disk.state.value;
    GoodImageLoads(s.cfg, img, s.clk, s.clk, s.m);
    var loaded := s.(m := LoadImage(s.cfg, img, s.clk, s.m).value);
    assert Loaded(loaded);
    BoxDependsOnDisk(s, loaded);
    OpenLoadedIff(loaded, stale, p);
  }

  lemma BoxDependsOnDisk(s: Sys, t: Sys)
    requires t == s.(m := t.m)
    ensures BoxToLoad(t) == BoxToLoad(s)
  {
  }

  lemma FreshOpens(s: Sys, stale: bool, p: Promise)
    requires Safe(s, p) && !s.m.isOpen && Working(s) && !s.disk.blocked && s.disk.state.None? && s.disk.outbox.None?
    ensures OpenFresh(s, stale).result == Opened <==> !s.m.scrubPending
  {
    hide Safe, Loaded, OpenLoaded, WriteState, Resumes, BoxToLoad;
    var initial := Fresh(s);
    InitialStateSafe(s, initial, p);
    WriteStateWorks(initial);
    WriteStateFrame(initial);
    OpenLoadedIff(WriteState(initial).s, stale, p);
  }

  /** After any run, whatever crashed, that condition decides whether the next open succeeds. */
  lemma OpensAfterRunIff(w: World, steps: seq<Step>, clk: nat, stale: bool)
    requires Pristine(w) && AdmissibleRun(w, steps) && TelemetryRuns.Run(w, steps).s.clk <= clk
    requires !TelemetryRuns.Run(w, steps).s.m.isOpen && Working(TelemetryRuns.Run(w, steps).s)
    ensures var s := Begin(TelemetryRuns.Run(w, steps).s, clk);
            Open(s, stale).result == Opened <==> Openable(s, stale)
  {
    hide Inv, Open, Openable, TelemetryRuns.Run, AdmissibleRun, RefusalsKept;
    PristineOk(w);
    RunOk(w, steps);
    var last := TelemetryRuns.Run(w, steps);
    BeginSafe(last.s, clk, PromiseOf(last));
    OpensIff(Begin(last.s, clk), stale, PromiseOf(last).(clk := clk));
  }

  // ---- when no open ever succeeds again ----

  /** A saved intent without an outbox file. */
  predicate Stranded(d: Disk) {
    d.state.Some? && d.state.value.pending.Some? && d.outbox.None? && !d.blocked
  }

  lemma StrandedOpen(s: Sys, stale: bool)
    requires Stranded(s.disk) && !s.m.isOpen
    ensures var o := Open(s, stale);
            o.result != Opened && o.s.disk == s.disk && !o.s.m.isOpen && o.s.journal == s.journal
  {
    hide LoadImage;
    LoadsPending(s.cfg, s.disk.state.value, s.clk, s.m.(pathKnown := true));
  }

  lemma LoadsPending(cfg: Config, img: Image, clk: nat, m: Mem)
    ensures LoadImage(cfg, img, clk, m).Some? ==>
              LoadImage(cfg, img, clk, m).value.pending == img.pending &&
              LoadImage(cfg, img, clk, m).value.isOpen == m.isOpen
  {
    hide CountersLoad, ContextLoads, PendingLoads, Replay;
  }

  lemma StrandedStays(w: World, step: Step)
    requires Stranded(w.s.disk) && !w.s.m.isOpen
    ensures Advance(w, step).s.disk == w.s.disk && !Advance(w, step).s.m.isOpen
  {
    hide Open;
    var s := Begin(w.s, step.clk);
    if step.call.DoOpen? {
      StrandedOpen(s, step.call.stale);
    }
  }

  /** Then no call of any later run changes the disk, and no open succeeds, however well storage works. */
  lemma {:induction false} StrandedForever(w: World, steps: seq<Step>, clk: nat, stale: bool)
    requires Stranded(w.s.disk) && !w.s.m.isOpen
    ensures var s := TelemetryRuns.Run(w, steps).s;
            s.disk == w.s.disk && !s.m.isOpen && Open(Begin(s, clk), stale).result != Opened
    decreases |steps|
  {
    hide Advance, Open;
    if steps == [] {
      StrandedOpen(Begin(w.s, clk), stale);
    } else {
      StrandedStays(w, steps[0]);
      StrandedForever(Advance(w, steps[0]), steps[1..], clk, stale);
    }
  }

  /**
   * Such a disk is reachable: after an ingest whose intent is saved and whose outbox write fails, an explicit stop
   * whose state write and marker both fail while the purge still deletes the outbox file, and then a crash.
   */
  lemma StopCanStrand(w: World, id: Identity, producer: Producer, samples: seq<Sample>)
    requires Pristine(w) && Works(w.s, 4) && w.s.env(w.s.tick + 4) == Fault(false, false, false)
    requires forall t :: w.s.tick + 5 <= t <= w.s.tick + 6 ==> w.s.env(t) == Fault(false, false, false)
    requires w.s.env(w.s.tick + 7) == Fault(false, false, true)
    requires id.Valid() && HasNonzero(producer) && 1 <= |samples| <= BATCH_LIMIT
    requires 0 < w.s.cfg.wireSize(FirstBatch(w.s.clk, id, producer, samples)) <= MAX_BATCH_BYTES
    ensures var steps := FirstCalls(w.s.clk, id, producer, samples) + [Crash(w.s.clk, DoStop, 1)];
            var t := TelemetryRuns.Run(w, steps).s;
            AdmissibleRun(w, steps) && Stranded(t.disk) && !t.m.isOpen
  {
    hide AdmissibleRun, TelemetryRuns.Run, Exec, HasNonzero, ExplicitStop;
    var clk := w.s.clk;
    var before, crash := FirstCalls(clk, id, producer, samples), Crash(clk, DoStop, 1);
    ReachesPending(w, id, producer, samples);
    var reached := TelemetryRuns.Run(w, before);
    RunThen(w, before, crash);
    var s := Begin(reached.s, clk);
    StopExec(s);
    FailedStop(s);
  }

  /** The durable effects of a stop all of whose writes fail, but for the deletion of the outbox file. */
  lemma FailedStop(s: Sys)
    requires s.m.isOpen && s.m.boxOpen && s.m.context.Bound() && !s.disk.blocked && s.journal == []
    requires forall t :: s.tick <= t <= s.tick + 1 ==> s.env(t) == Fault(false, false, false)
    requires s.env(s.tick + 2) == Fault(false, false, true)
    ensures ExplicitStop(s).journal == [s.disk.(outbox := None)]
  {
    hide Flush;
    var s1 := Stopping(s);
    var w := WriteState(s1);
    assert !w.ok && w.s == s1.Tick();
    var t := w.s.(o := w.s.o.Fail(StateFailed).PublicationFailed());
    var k := WriteMarker(t);
    assert !k.ok && k.s == t.Tick();
    var u := k.s.(o := k.s.o.SetWitness(WitnessUnconfirmed).Fail(RevocationUnconfirmed));
    assert Purge(u).s.journal == [s.disk.(outbox := None)];
  }
}
