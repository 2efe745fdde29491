/** Batches are offered under a standing permission only, and then exactly as picked. */
module TelemetryPermission {
  import opened Bytes
  import opened Lifecycle
  import opened Outcomes
  import opened TelemetryModel
  import opened TelemetryInvariant
  import opened TelemetrySafety
  import opened TelemetryCalls
  import opened TelemetryRuns
  import opened TelemetryConservation
  import opened TelemetryRecovery
  import opened TelemetryContents

  ghost predicate MayUpload(s: Sys) {
    s.m.isOpen && s.m.life.state == Enabled
  }

  /** The context is the same, and its lifecycle too unless it has been revoked. */
  ghost predicate SameOrStopped(s: Sys, t: Sys) {
    t.m.context == s.m.context && (t.m.life == s.m.life || t.m.life == s.m.life.Stop())
  }

  lemma FlushSameOrStopped(s: Sys, now: nat, p: Promise)
    requires OpenOk(s, p) && Strict(s)
    ensures SameOrStopped(s, Flush(s, now).s)
  {
    hide OpenOk, Strict, Flush;
    FlushSafe(s, now, p);
  }

  // ---- what one call does to the permission ----

  lemma {:induction false} IngestLoopSameOrStopped(s: Sys, samples: seq<Sample>, now: nat, p: Promise)
    requires OpenOk(s, p) && Strict(s) && Settled(s.m) && s.m.life.state == Enabled && now > 0
    ensures SameOrStopped(s, IngestLoop(s, samples, now).s)
    decreases |samples|
  {
    hide OpenOk, Strict, DropRemaining, DropTail, Flush, CanStage;
    if samples != [] {
      var n := Min(|samples|, BATCH_LIMIT);
      var b := NextBatch(s, samples[..n], now);
      if !CanStage(s, b) {
        DropRemainingSafe(s, |samples|, now, p);
      } else {
        var staged := Stage(s, b, now);
        StageSafe(s, b, now, p);
        FlushSafe(staged, now, p);
        var f := Flush(staged, now);
        if f.ok {
          IngestLoopSameOrStopped(f.s, samples[n..], now, p);
        } else {
          DropTailSameLife(f.s, |samples| - n, now);
        }
      }
    }
  }

  lemma DropTailSameLife(s: Sys, samples: nat, now: nat)
    ensures DropTail(s, samples, now).m.life == s.m.life && DropTail(s, samples, now).m.context == s.m.context
  {
    hide CountDropped, WriteState, Ceiling;
    if samples != 0 {
      CountDroppedSameLife(s, samples, Ceiling(samples), now);
      var c := CountDropped(s, samples, Ceiling(samples), now);
      WriteStateFrame(c.(m := c.m.(dirty := true)));
    }
  }

  lemma CountDroppedSameLife(s: Sys, samples: nat, batches: nat, now: nat)
    ensures var c := CountDropped(s, samples, batches, now);
            c.m.life == s.m.life && c.m.context == s.m.context
  {
    hide ExpiredAt, AddSaturated;
  }

  lemma IngestSameOrStopped(s: Sys, samples: seq<Sample>, now: nat, p: Promise)
    requires Inv(s, p) && s.m.isOpen
    ensures SameOrStopped(s, Ingest(s, samples, now).s)
  {
    hide MemOk, Strict, DropRemaining, Flush, IngestLoop, Unauthorized, Good, Safe;
    ClockRuns(s, p);
    if samples == [] {
    } else if s.m.life.state != Enabled {
      UnauthorizedSameOrStopped(s, |samples|, now, p);
    } else {
      FlushSafe(s, Now(s, now), p);
      var f := Flush(s, Now(s, now));
      if f.ok {
        IngestLoopSameOrStopped(f.s, samples, Now(s, now), p);
      } else {
        DropRemainingSafe(f.s, |samples|, Now(s, now), p);
      }
    }
  }

  lemma UnauthorizedSameOrStopped(s: Sys, samples: nat, now: nat, p: Promise)
    requires OpenOk(s, p) && Strict(s)
    ensures SameOrStopped(s, Unauthorized(s, samples, now))
  {
    hide OpenOk, Flush, TouchLoss;
    TouchLossSafe(s, now, p);
    var t := TouchLoss(s, now);
    var touched := t.(m := t.m.(dirty := true));
    CountersBounded(touched, p);
    CountersSafe(touched, t.m.droppedSamples, t.m.droppedBatches, AddSaturated(t.m.notAuthorized, samples),
                 t.m.lossFirst, p);
    var counted := t.(m := t.m.(notAuthorized := AddSaturated(t.m.notAuthorized, samples), dirty := true));
    StrictOnDisk(s, counted);
    hide Strict;
    FlushSafe(counted, now, p);
  }

  lemma OpenPermits(s: Sys, stale: bool, p: Promise)
    requires Inv(s, p)
    ensures var o := Open(s, stale);
            MayUpload(o.s) ==> MayUpload(s) && o.s.m.context == s.m.context && o.result != Opened
  {
    hide Good, MemOk, Strict, OpenFresh, OpenSaved, Flush;
    CloseLockedSafe(s, p);
    if s.m.isOpen {
      FlushSameOrStopped(s, 0, p);
      FlushSafe(s, 0, p);
    }
    var c := CloseLocked(s);
    if c.ok {
      var s1 := c.s.(m := c.s.m.(pathKnown := true));
      assert Inv(s1, p) && !s1.m.isOpen;
      if !s1.disk.blocked && s1.disk.state.Some? {
        SavedOpensSuspended(s1, stale, p);
      } else if !s1.disk.blocked {
        UnexplainedOutbox(s1, p);
        FreshOpensDisabled(s1, stale, p);
      }
    }
  }

  /** What has just been loaded is never enabled, and recovering it does not change that. */
  lemma LoadedOpensSuspended(s: Sys, stale: bool, p: Promise)
    requires Safe(s, p) && Loaded(s)
    ensures !MayUpload(OpenLoaded(s, stale).s)
  {
    hide Good, MemOk, OpenBox, Flush, RevokePending, Strict, RecordExpired, PendingExpired, Consistent;
    OpenBoxSteps(s, stale, p);
    var b := OpenBox(s, stale);
    if b.ok {
      ReadySafe(s, b.s, p);
      var ready := b.s.(m := b.s.m.(isOpen := true, cleanup := b.s.m.life.state == Revoked));
      if !(s.m.pending.Some? && stale) {
        KeptPendingIsYoung(ready, p);
        FlushSafe(ready, 0, p);
      }
    }
  }

  lemma SavedOpensSuspended(s: Sys, stale: bool, p: Promise)
    requires Safe(s, p) && s.disk.state.Some? && !s.disk.blocked && !s.m.isOpen
    ensures !MayUpload(OpenSaved(s, s.disk.state.value, stale).s)
  {
    hide Tracked, History, ArchiveOk, OpenLoaded, MemOk, Strict, LoadImage;
    var img := s.disk.state.value;
    GoodImageLoads(s.cfg, img, s.clk, s.clk, s.m);
    var loaded := s.(m := LoadImage(s.cfg, img, s.clk, s.m).value);
    assert Loaded(loaded);
    LoadedOpensSuspended(loaded, stale, p);
  }

  lemma FreshOpensDisabled(s: Sys, stale: bool, p: Promise)
    requires Safe(s, p) && s.disk.state.None? && s.disk.outbox.None? && !s.disk.blocked
    ensures !MayUpload(OpenFresh(s, stale).s)
  {
    hide Safe, Loaded, OpenLoaded, WriteState;
    var initial := Fresh(s);
    InitialStateSafe(s, initial, p);
    if WriteState(initial).ok {
      LoadedOpensSuspended(WriteState(initial).s, stale, p);
    }
  }

  lemma EnablePermits(s: Sys, id: Identity, candidate: Option<Producer>, p: Promise)
    requires Inv(s, p)
    requires candidate.Some? ==> forall b :: b in s.disk.enqueued ==> b.producer != candidate.value
    ensures var r := ServerEnable(s, id, candidate);
            MayUpload(r.s) ==> (r.ok && r.s.m.context == id) || (MayUpload(s) && r.s.m.context == s.m.context)
  {
    hide MemOk, Strict, Good, Flush, Authorize;
    if s.m.isOpen && id.Valid() {
      FlushSafe(s, 0, p);
      var f := Flush(s, 0);
      if f.ok && !f.s.m.life.IsRevoked(id) {
        if !f.s.m.context.Empty() && f.s.m.life.state != Revoked {
          if f.s.m.context == id {
            MemContext(f.s, p);
            AuthorizePermits(f.s, id);
          }
        } else if candidate.Some? && f.s.m.life.CanSetContext(id) {
          MemContext(f.s, p);
          AuthorizePermits(NewContext(f.s, id, candidate.value), id);
        }
      }
    }
  }

  lemma AuthorizePermits(s: Sys, id: Identity)
    ensures var r := Authorize(s, id);
            r.s.m.context == s.m.context &&
            ((r.s.m.life.state == Enabled && id.Valid() && s.m.context == s.m.life.context == id &&
              !s.m.life.IsRevoked(id)) ==> r.ok)
  {
    if id.Valid() {
      ValidIsBound(id);
    }
  }

  lemma DisconnectForbids(s: Sys, p: Promise)
    requires Inv(s, p)
    ensures !MayUpload(ServerDisconnect(s))
  {
    hide Tracked, History, ArchiveOk, Good, Flush;
    if s.m.isOpen {
      FlushSafe(s.(m := s.m.(life := s.m.life.Disconnect(), dirty := true),
                   o := UNOBSERVED.(flush := Some(EnterFlush(s.m)))), 0, p);
    }
  }

  lemma StopForbids(s: Sys, p: Promise)
    requires Inv(s, p)
    ensures !MayUpload(ExplicitStop(s))
  {
    hide Good, PersistRevocation, Tracked, ArchiveOk, Strict;
    if s.m.isOpen {
      if s.m.context.Bound() {
        StoppingSafe(s, p);
        PersistRevocationSafe(Stopping(s), s.clk, p);
      } else if s.m.life.state == Enabled {
        EnabledIsBound(s, p);
      }
    }
  }

  lemma EnabledIsBound(s: Sys, p: Promise)
    requires OpenOk(s, p) && s.m.life.state == Enabled
    ensures s.m.context.Bound()
  {
    hide Good, Tracked, ArchiveOk;
    ValidIsBound(s.m.context);
  }

  lemma MaintenanceSameOrStopped(s: Sys, now: nat, p: Promise)
    requires OpenOk(s, p) && Strict(s)
    ensures SameOrStopped(s, Maintenance(s, now).s)
  {
    hide OpenOk, Strict, Flush, Prune;
    FlushSameOrStopped(s, Now(s, now), p);
    var f := Flush(s, Now(s, now)).s;
    assert BoxFrame(f, Prune(f, Now(s, now)).s);
  }

  /** A call that leaves a permission either granted it, or found it and was none of those that end it. */
  lemma CallPermits(s: Sys, c: Call, p: Promise)
    requires Inv(s, p)
    requires c.DoEnable? && c.candidate.Some? ==> forall b :: b in s.disk.enqueued ==> b.producer != c.candidate.value
    ensures var d := Exec(s, c);
            MayUpload(d.s) ==>
              (c.DoEnable? && d.facts == [Authorized(c.id)] && d.s.m.context == c.id) ||
              (MayUpload(s) && d.s.m.context == s.m.context && !c.DoDisconnect? && !c.DoStop? &&
               (c.DoOpen? ==> Open(s, c.stale).result != Opened))
  {
    hide MemOk, Good, Strict, Open, ServerEnable, ServerDisconnect, ExplicitStop, Ingest, Flush, Acknowledge,
         Maintenance;
    match c {
      case DoOpen(stale) => OpenPermits(s, stale, p);
      case DoEnable(id, candidate) => EnablePermits(s, id, candidate, p);
      case DoDisconnect => DisconnectForbids(s, p);
      case DoStop => StopForbids(s, p);
      case DoClose =>
        if s.m.isOpen {
          var observed := s.(o := UNOBSERVED.(flush := Some(EnterFlush(s.m))));
          ObserverIrrelevant(s, observed.o, p);
          StrictOnDisk(s, observed);
          FlushSameOrStopped(observed, 0, p);
        }
      case DoIngest(samples, now) =>
        if s.m.isOpen {
          IngestSameOrStopped(s, samples, now, p);
        } else {
          ClosedIngestsNothing(s, samples, now);
        }
      case DoAck(a, now) =>
        if s.m.isOpen {
          FlushSameOrStopped(s, now, p);
          AcknowledgeFrame(Flush(s, now).s, a, Now(s, now));
        }
      case DoSend(now, _) =>
        if s.m.isOpen {
          MaintenanceSameOrStopped(s, now, p);
        }
      case DoMaintain(now) =>
        if s.m.isOpen {
          MaintenanceSameOrStopped(s, now, p);
        } else {
          ClosedStaysClosed(s, now);
        }
    }
  }

  lemma ClosedIngestsNothing(s: Sys, samples: seq<Sample>, now: nat)
    requires !s.m.isOpen
    ensures Ingest(s, samples, now).s == s
  {
  }

  lemma ClosedStaysClosed(s: Sys, now: nat)
    requires !s.m.isOpen
    ensures !Maintain(s, now).s.m.isOpen
  {
  }

  /** An offer needs the permission, and is for the context that has it. */
  lemma OfferNeedsPermission(s: Sys, now: nat, pick: nat, p: Promise)
    requires Inv(s, p) && NextToSend(s, now, pick).batch.Some?
    ensures MayUpload(s) && NextToSend(s, now, pick).batch.value.context == s.m.context
  {
    hide Maintenance, Good, Strict, MemOk;
    MaintenanceSameOrStopped(s, now, p);
    MaintenanceSafe(s, now, p);
    var q := Maintenance(s, now).s;
    assert NextToSend(s, now, pick).batch.value == q.m.box.records[pick].batch;
    RecordsInContext(q, p);
    BoxIsDurable(q, p);
    assert Records(q.disk) == q.m.box.records;
  }

  lemma RecordsInContext(s: Sys, p: Promise)
    requires OpenOk(s, p)
    ensures forall i :: 0 <= i < |Records(s.disk)| ==> Records(s.disk)[i].batch.context == s.m.context
  {
    hide Good, ArchiveOk;
    assert forall i :: 0 <= i < |Records(s.disk)| ==> Records(s.disk)[i] in Records(s.disk);
  }

  // ---- over runs ----

  /** Step `j` is an enable of an identity that succeeded. */
  ghost predicate EnabledAt(w: World, steps: seq<Step>, j: nat, id: Identity)
    requires j < |steps|
  {
    var c := steps[j].call;
    steps[j].Complete? && c.DoEnable? && c.id == id &&
    Exec(Begin(TelemetryRuns.Run(w, steps[..j]).s, steps[j].clk), c).facts == [Authorized(id)]
  }

  /**
   * Step `k` ends no permission: it is no crash, no disconnect, shutdown or stop, no open that succeeds, and no close
   * that completes.
   */
  ghost predicate EndsNothing(w: World, steps: seq<Step>, k: nat)
    requires k < |steps|
  {
    var c := steps[k].call;
    && steps[k].Complete? && !c.DoDisconnect? && !c.DoStop?
    && TelemetryRuns.Run(w, steps[..k + 1]).s.m.isOpen
    && (c.DoOpen? ==> Open(Begin(TelemetryRuns.Run(w, steps[..k]).s, steps[k].clk), c.stale).result != Opened)
  }

  ghost predicate Standing(w: World, steps: seq<Step>, n: nat, id: Identity)
    requires n <= |steps|
  {
    exists j: nat :: j < n && EnabledAt(w, steps, j, id) && forall k: nat :: j < k < n ==> EndsNothing(w, steps, k)
  }

  lemma {:induction false} PrefixAdmissible(w: World, steps: seq<Step>, n: nat)
    requires AdmissibleRun(w, steps) && n <= |steps|
    ensures AdmissibleRun(w, steps[..n])
    ensures n < |steps| ==> Admissible(TelemetryRuns.Run(w, steps[..n]), steps[n]) &&
                            TelemetryRuns.Run(w, steps[..n + 1]) == Advance(TelemetryRuns.Run(w, steps[..n]), steps[n])
    decreases |steps| - n
  {
    hide Advance, Admissible;
    if n == |steps| {
      assert steps[..n] == steps;
    } else {
      PrefixAdmissible(w, steps, n + 1);
      assert steps[..n + 1] == steps[..n] + [steps[n]];
      RunThen(w, steps[..n], steps[n]);
    }
  }

  lemma {:induction false} PermissionIsStanding(w: World, steps: seq<Step>, n: nat)
    requires Pristine(w) && AdmissibleRun(w, steps) && n <= |steps|
    ensures WorldOk(TelemetryRuns.Run(w, steps[..n]))
    ensures var s := TelemetryRuns.Run(w, steps[..n]).s;
            MayUpload(s) ==> Standing(w, steps, n, s.m.context)
    decreases n
  {
    hide TelemetryRuns.Run, AdmissibleRun, WorldOk, Exec, Open, Admissible;
    PristineOk(w);
    PrefixAdmissible(w, steps, n);
    RunOk(w, steps[..n]);
    if n == 0 {
      NoStepsYet(w);
      assert steps[..0] == [];
    } else {
      PermissionIsStanding(w, steps, n - 1);
      PrefixAdmissible(w, steps, n - 1);
      StandingStep(w, steps, n - 1);
    }
  }

  lemma NoStepsYet(w: World)
    requires Pristine(w)
    ensures !MayUpload(TelemetryRuns.Run(w, []).s)
  {
  }

  lemma StandingStep(w: World, steps: seq<Step>, n: nat)
    requires n < |steps| && WorldOk(TelemetryRuns.Run(w, steps[..n]))
    requires Admissible(TelemetryRuns.Run(w, steps[..n]), steps[n])
    requires TelemetryRuns.Run(w, steps[..n + 1]) == Advance(TelemetryRuns.Run(w, steps[..n]), steps[n])
    requires var s := TelemetryRuns.Run(w, steps[..n]).s;
             MayUpload(s) ==> Standing(w, steps, n, s.m.context)
    ensures var s := TelemetryRuns.Run(w, steps[..n + 1]).s;
            MayUpload(s) ==> Standing(w, steps, n + 1, s.m.context)
  {
    hide TelemetryRuns.Run, Exec, Open, Inv, RefusalsKept;
    var before, after := TelemetryRuns.Run(w, steps[..n]), TelemetryRuns.Run(w, steps[..n + 1]);
    var s := Begin(before.s, steps[n].clk);
    var p := PromiseOf(before).(clk := steps[n].clk);
    ExecAdmissible(before, steps[n]);
    assert forall b :: b in s.disk.enqueued ==> exists i :: 0 <= i < |s.disk.enqueued| && s.disk.enqueued[i] == b;
    CallPermits(s, steps[n].call, p);
    if MayUpload(after.s) {
      if steps[n].call.DoEnable? && Exec(s, steps[n].call).facts == [Authorized(steps[n].call.id)] &&
         after.s.m.context == steps[n].call.id {
        assert EnabledAt(w, steps, n, after.s.m.context);
      } else {
        assert MayUpload(before.s);
        var id := before.s.m.context;
        var j: nat :| j < n && EnabledAt(w, steps, j, id) && forall k: nat :: j < k < n ==> EndsNothing(w, steps, k);
        assert EndsNothing(w, steps, n);
        assert EnabledAt(w, steps, j, after.s.m.context);
      }
    }
  }

  /**
   * Upload permission: in every run a batch is only offered when an enable of its context has succeeded before and no
   * crash, disconnect, shutdown, stop, successful open or completed close has come between.
   */
  lemma OffersNeedPermission(w: World, steps: seq<Step>, i: nat, b: Batch)
    requires Pristine(w) && AdmissibleRun(w, steps) && i < |steps| && steps[i].call.DoSend?
    requires Exec(Begin(TelemetryRuns.Run(w, steps[..i]).s, steps[i].clk), steps[i].call).facts == [Offered(b)]
    ensures Standing(w, steps, i, b.context)
  {
    hide TelemetryRuns.Run, AdmissibleRun, Inv, RefusalsKept, Standing, NextToSend, Admissible;
    PermissionIsStanding(w, steps, i);
    PrefixAdmissible(w, steps, i);
    var before := TelemetryRuns.Run(w, steps[..i]);
    var s := Begin(before.s, steps[i].clk);
    AdmissibleClock(before, steps[i]);
    BeginSafe(before.s, steps[i].clk, PromiseOf(before));
    OfferNeedsPermission(s, steps[i].call.now, steps[i].call.pick, PromiseOf(before).(clk := steps[i].clk));
  }

  lemma AdmissibleClock(w: World, step: Step)
    requires Admissible(w, step)
    ensures w.s.clk <= step.clk
  {
  }

  // ---- what is offered ----

  lemma {:induction false} NothingDropped(records: seq<Record>, now: nat)
    requires forall i :: 0 <= i < |records| ==> !RecordExpired(records[i], now)
    ensures Retained(records, now) == records
  {
    hide RecordExpired;
    if records != [] {
      NothingDropped(records[1..], now);
    }
  }

  /**
   * An open, enabled coordinator with nothing pending offers, on working storage, exactly the record picked among those
   * that have not expired.
   */
  lemma OffersExactly(s: Sys, now: nat, pick: nat, p: Promise)
    requires Inv(s, p) && MayUpload(s) && s.m.pending.None? && Working(s)
    ensures var live := Retained(s.m.box.records, Now(s, now));
            NextToSend(s, now, pick).batch == if pick < |live| then Some(live[pick].batch) else None
    ensures pick < |s.m.box.records| && (forall r :: r in s.m.box.records ==> !RecordExpired(r, Now(s, now))) ==>
              NextToSend(s, now, pick).batch == Some(s.m.box.records[pick].batch)
  {
    hide MemOk, Good, Strict, Flush, Prune, RecordExpired, Retained;
    var t := Now(s, now);
    var records := s.m.box.records;
    ClockRuns(s, p);
    EmptyFlushWorks(s, t, p);
    FlushSafe(s, t, p);
    var f := Flush(s, t).s;
    PruneWorks(f, t);
    RetainedShrinks(records, t);
    if forall i :: 0 <= i < |records| ==> !RecordExpired(records[i], t) {
      NothingDropped(records, t);
    }
    var q := Prune(f, t).s;
    assert BoxFrame(f, q);
    assert forall i :: 0 <= i < |Retained(records, t)| ==> Retained(records, t)[i] in Retained(records, t);
    assert q.m.box.records == Retained(records, t);
  }
}
