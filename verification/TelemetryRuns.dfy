/** Runs of the coordinator in which every call may be cut short by a crash after any of its durable writes. */
module TelemetryRuns {
  import opened Bytes
  import opened Lifecycle
  import opened Outcomes
  import opened TelemetryModel
  import opened TelemetryInvariant
  import opened TelemetrySafety
  import opened TelemetryCalls

  datatype Call =
    | DoOpen(stale: bool)
    | DoEnable(id: Identity, candidate: Option<Producer>)
    | DoDisconnect
    | DoClose
    | DoStop
    | DoIngest(samples: seq<Sample>, now: nat)
    | DoAck(ack: Ack, now: nat)
    | DoSend(now: nat, pick: nat)
    | DoMaintain(now: nat)

  /** What the outside world learns from completed calls. */
  datatype Fact =
    | Refused(id: Identity)
    | Authorized(id: Identity)
    | Offered(batch: Batch)
    | Acknowledged(batch: Batch)

  datatype Done = Done(s: Sys, facts: seq<Fact>)

  /** A stop whose report names a confirmed durable witness. */
  predicate WitnessConfirmed(o: Observer) {
    o.stop.Some? &&
    (o.stop.value.durable == ProtectedStateConfirmed || o.stop.value.durable == RefusalMarkerConfirmed)
  }

  function Exec(s: Sys, c: Call): Done {
    match c
    case DoOpen(stale) => Done(Open(s, stale).s, [])
    case DoEnable(id, candidate) =>
      var r := ServerEnable(s, id, candidate);
      Done(r.s, if r.ok then [Authorized(id)] else [])
    case DoDisconnect => Done(ServerDisconnect(s), [])
    case DoClose => Done(Close(s), [])
    case DoStop =>
      var t := ExplicitStop(s);
      Done(t, if WitnessConfirmed(t.o) then [Refused(s.m.context)] else [])
    case DoIngest(samples, now) => Done(Ingest(s, samples, now).s, [])
    case DoAck(a, now) =>
      var r := ServerAck(s, a, now);
      Done(r.s, if Effective(r.result) then [Acknowledged(AckedBatch(s, a, now))] else [])
    case DoSend(now, pick) =>
      var n := NextToSend(s, now, pick);
      Done(n.s, if n.batch.Some? then [Offered(n.batch.value)] else [])
    case DoMaintain(now) => Done(Maintain(s, now).s, [])
  }

  /** A call runs to its end, or the process dies once `writes` of its durable writes have happened. */
  datatype Step = Complete(clk: nat, call: Call) | Crash(clk: nat, call: Call, writes: nat)

  datatype World = World(s: Sys, facts: seq<Fact>)

  function DiskAfter(s: Sys, t: Sys, writes: nat): Disk {
    var n := Min(writes, |t.journal|);
    if n == 0 then s.disk else t.journal[n - 1]
  }

  function Advance(w: World, step: Step): World {
    var s := Begin(w.s, step.clk);
    var d := Exec(s, step.call);
    match step
    case Complete(_, _) => World(d.s.(journal := []), w.facts + d.facts)
    case Crash(_, _, writes) => World(d.s.(disk := DiskAfter(s, d.s, writes), m := BOOT, journal := []), w.facts)
  }

  /** The clock does not go back, and a producer candidate is new among all durable batches. */
  predicate Admissible(w: World, step: Step) {
    w.s.clk <= step.clk &&
    (step.call.DoEnable? && step.call.candidate.Some? ==>
       forall i :: 0 <= i < |w.s.disk.enqueued| ==> w.s.disk.enqueued[i].producer != step.call.candidate.value)
  }

  predicate AdmissibleRun(w: World, steps: seq<Step>)
    decreases |steps|
  {
    steps == [] || (Admissible(w, steps[0]) && AdmissibleRun(Advance(w, steps[0]), steps[1..]))
  }

  function Run(w: World, steps: seq<Step>): World
    decreases |steps|
  {
    if steps == [] then w else Run(Advance(w, steps[0]), steps[1..])
  }

  /** A machine on which the service has never run. */
  predicate Pristine(w: World) {
    w.s.clk > 0 && w.s.disk == Disk(None, None, false, false, []) && w.s.m == BOOT && w.s.journal == [] && w.facts == []
  }

  function SealedBy(facts: seq<Fact>): set<Identity> {
    set f | f in facts && f.Refused? :: f.id
  }

  /** Batches that have been offered for sending, or acknowledged. */
  function SpentBy(facts: seq<Fact>): set<Batch> {
    set f | f in facts && (f.Offered? || f.Acknowledged?) :: f.batch
  }

  /** Nothing is authorized or offered for an identity whose refusal was reported earlier. */
  ghost predicate RefusalsKept(facts: seq<Fact>) {
    forall i, j :: 0 <= i < j < |facts| && facts[i].Refused? ==>
                     facts[j] != Authorized(facts[i].id) &&
                     (facts[j].Offered? ==> facts[j].batch.context != facts[i].id)
  }

  ghost function PromiseOf(w: World): Promise {
    Promise(SealedBy(w.facts), w.s.disk.enqueued, SpentBy(w.facts), w.s.cfg, w.s.clk)
  }

  ghost predicate WorldOk(w: World) {
    && Inv(w.s, PromiseOf(w))
    && RefusalsKept(w.facts)
    && (forall f :: f in w.facts && f.Offered? ==> f.batch in w.s.disk.enqueued)
  }

  // ---- a confirmed stop seals ----

  lemma FallbackSeals(s: Sys, p: Promise)
    requires OpenOk(s, p) && Strict(s) && s.m.cleanup && s.o.stop.Some?
    ensures var t := RevocationFallback(s);
            t.o.stop.Some? &&
            (WitnessConfirmed(t.o) && s.o.stop.value.durable == WitnessNotAttempted ==> t.disk.blocked)
  {
    hide Safe, MemOk, Purge;
    var s1 := s.(o := s.o.Fail(StateFailed).PublicationFailed());
    ObserverIrrelevant(s, s1.o, p);
    WriteMarkerSafe(s1, p);
    assert BoxFrame(s1, Purge(s1).s);
  }

  /** A stop that reports a confirmed witness leaves its context refused by the disk, for good. */
  lemma StopSeals(s: Sys, p: Promise)
    requires Inv(s, p) && s.journal == [] && WitnessConfirmed(ExplicitStop(s).o)
    ensures Inv(ExplicitStop(s).(journal := []), p.(sealed := p.sealed + {s.m.context}))
  {
    hide Tracked, History, ImageOk, Flush, RevocationFallback, DistinctSequences;
    assert s.m.isOpen && s.m.context.Bound();
    StoppingSafe(s, p);
    var s1 := Stopping(s);
    var sealed := p.(sealed := p.sealed + {s.m.context});
    WriteStateSafe(s1, p);
    var w := WriteState(s1);
    if w.ok {
      assert w.s.journal == [w.s.disk];
      assert OpenOk(w.s, sealed);
      var observed := w.s.o.SetWitness(ProtectedStateConfirmed).SetPublication(CurrentStateConfirmed);
      ObserverIrrelevant(w.s, observed, sealed);
      FlushSafe(w.s.(o := observed), s.clk, sealed);
    } else {
      FallbackSafe(w.s, p);
      FallbackSeals(w.s, p);
    }
  }

  // ---- every reachable world is good ----

  /** A durable batch that may be promised never to become durable again. */
  ghost predicate Spendable(s: Sys, b: Batch, p: Promise) {
    b in s.disk.enqueued && Inv(s.(journal := []), p.(durable := s.disk.enqueued, spent := p.spent + {b}))
  }

  lemma ExecSafe(s: Sys, c: Call, p: Promise)
    requires Inv(s, p) && s.journal == [] && p.durable == s.disk.enqueued
    requires c.DoEnable? && c.candidate.Some? ==> forall b :: b in s.disk.enqueued ==> b.producer != c.candidate.value
    ensures Inv(Exec(s, c).s, p)
    ensures s.m.isOpen && !c.DoOpen? && !c.DoClose? ==> Exec(s, c).s.m.isOpen
    ensures |Exec(s, c).facts| <= 1
    ensures forall f :: f in Exec(s, c).facts ==>
              match f
              case Refused(id) => Inv(Exec(s, c).s.(journal := []), p.(sealed := p.sealed + {id}))
              case Authorized(id) => id !in p.sealed
              case Offered(b) => b.context !in p.sealed && Spendable(Exec(s, c).s, b, p)
              case Acknowledged(b) => Spendable(Exec(s, c).s, b, p)
  {
    hide Inv, Open, ServerEnable, ServerDisconnect, Close, ExplicitStop, Ingest, ServerAck, NextToSend, Maintain;
    match c {
      case DoOpen(stale) => OpenSafe(s, stale, p);
      case DoEnable(id, candidate) => EnableSafe(s, id, candidate, p);
      case DoDisconnect => DisconnectSafe(s, p);
      case DoClose => CloseSafe(s, p);
      case DoStop =>
        StopSafe(s, p);
        if WitnessConfirmed(ExplicitStop(s).o) {
          StopSeals(s, p);
        }
      case DoIngest(samples, now) => IngestSafe(s, samples, now, p);
      case DoAck(a, now) =>
        ServerAckSafe(s, a, now, p);
        if Effective(ServerAck(s, a, now).result) {
          SettledSpends(ServerAck(s, a, now).s, AckedBatch(s, a, now), p);
        }
      case DoSend(now, pick) =>
        NextToSendSafe(s, now, pick, p);
        if NextToSend(s, now, pick).batch.Some? {
          SettledSpends(NextToSend(s, now, pick).s, NextToSend(s, now, pick).batch.value, p);
        }
      case DoMaintain(now) => MaintainSafe(s, now, p);
    }
  }

  /** Any durable state of a call is a good place to restart from. */
  lemma CrashSafe(s: Sys, t: Sys, writes: nat, p: Promise)
    requires Inv(s, p) && Inv(t, p)
    ensures Inv(t.(disk := DiskAfter(s, t, writes), m := BOOT, journal := []), p)
  {
    hide Good;
  }

  lemma SealedByGrows(facts: seq<Fact>, f: Fact)
    ensures SealedBy(facts + [f]) == if f.Refused? then SealedBy(facts) + {f.id} else SealedBy(facts)
    ensures SpentBy(facts + [f]) ==
            if f.Offered? || f.Acknowledged? then SpentBy(facts) + {f.batch} else SpentBy(facts)
  {
    assert forall g :: g in facts + [f] <==> g in facts || g == f;
  }

  lemma FactsKept(facts: seq<Fact>, f: Fact)
    requires RefusalsKept(facts)
    requires f.Authorized? ==> f.id !in SealedBy(facts)
    requires f.Offered? ==> f.batch.context !in SealedBy(facts)
    ensures RefusalsKept(facts + [f])
  {
    forall i | 0 <= i < |facts| && facts[i].Refused?
      ensures facts[i].id in SealedBy(facts)
    {
      assert facts[i] in facts;
    }
  }

  /** The next call may be promised everything durable so far. */
  lemma Repromise(s: Sys, p: Promise)
    requires Inv(s, p)
    ensures Inv(s.(journal := []), p.(durable := s.disk.enqueued)) && p.durable <= s.disk.enqueued
    ensures forall i :: |p.durable| <= i < |s.disk.enqueued| ==> s.disk.enqueued[i] !in p.spent
    ensures p.clk == s.clk && p.cfg == s.cfg
  {
    hide DiskOk;
  }

  lemma CrashOk(w: World, step: Step)
    requires WorldOk(w) && Admissible(w, step) && step.Crash?
    ensures WorldOk(Advance(w, step))
  {
    hide Exec, Inv, RefusalsKept;
    var p := PromiseOf(w).(clk := step.clk);
    var s := Begin(w.s, step.clk);
    ExecAdmissible(w, step);
    var d := Exec(s, step.call);
    CrashSafe(s, d.s, step.writes, p);
    Repromise(d.s.(disk := DiskAfter(s, d.s, step.writes), m := BOOT, journal := []), p);
  }

  lemma ExecAdmissible(w: World, step: Step)
    requires WorldOk(w) && Admissible(w, step)
    ensures var p := PromiseOf(w).(clk := step.clk);
            var s := Begin(w.s, step.clk);
            var d := Exec(s, step.call);
            Inv(s, p) && Inv(d.s, p) && |d.facts| <= 1 &&
            (s.m.isOpen && !step.call.DoOpen? && !step.call.DoClose? ==> d.s.m.isOpen) &&
            forall f :: f in d.facts ==>
              match f
              case Refused(id) => Inv(d.s.(journal := []), p.(sealed := p.sealed + {id}))
              case Authorized(id) => id !in p.sealed
              case Offered(b) => b.context !in p.sealed && Spendable(d.s, b, p)
              case Acknowledged(b) => Spendable(d.s, b, p)
  {
    hide Exec, Inv;
    var p := PromiseOf(w).(clk := step.clk);
    var s := Begin(w.s, step.clk);
    BeginSafe(w.s, step.clk, PromiseOf(w));
    assert forall b :: b in s.disk.enqueued ==> exists i :: 0 <= i < |s.disk.enqueued| && s.disk.enqueued[i] == b;
    ExecSafe(s, step.call, p);
  }

  lemma CompleteOk(w: World, step: Step)
    requires WorldOk(w) && Admissible(w, step) && step.Complete?
    ensures WorldOk(Advance(w, step))
  {
    hide Exec, Inv, RefusalsKept;
    var p := PromiseOf(w).(clk := step.clk);
    var s := Begin(w.s, step.clk);
    ExecAdmissible(w, step);
    var d := Exec(s, step.call);
    Repromise(d.s, p);
    if d.facts == [] {
      assert w.facts + d.facts == w.facts;
    } else {
      var f := d.facts[0];
      assert d.facts == [f] && f in d.facts;
      SealedByGrows(w.facts, f);
      FactsKept(w.facts, f);
      if f.Refused? {
        Repromise(d.s.(journal := []), p.(sealed := p.sealed + {f.id}));
      }
      assert forall g :: g in w.facts + d.facts ==> g in w.facts || g == f;
    }
  }

  /** One step only adds durable batches, and none that was offered or acknowledged before. */
  lemma StepAddsUnspent(w: World, step: Step)
    requires WorldOk(w) && Admissible(w, step)
    ensures w.s.disk.enqueued <= Advance(w, step).s.disk.enqueued && SpentBy(w.facts) <= SpentBy(Advance(w, step).facts)
    ensures forall i :: |w.s.disk.enqueued| <= i < |Advance(w, step).s.disk.enqueued| ==>
                          Advance(w, step).s.disk.enqueued[i] !in SpentBy(w.facts)
  {
    hide Exec, Inv, RefusalsKept;
    var p := PromiseOf(w).(clk := step.clk);
    var s := Begin(w.s, step.clk);
    ExecAdmissible(w, step);
    var d := Exec(s, step.call);
    if step.Crash? {
      CrashSafe(s, d.s, step.writes, p);
      Repromise(d.s.(disk := DiskAfter(s, d.s, step.writes), m := BOOT, journal := []), p);
    } else {
      Repromise(d.s, p);
    }
  }

  lemma {:induction false} RunAddsUnspent(w: World, steps: seq<Step>)
    requires WorldOk(w) && AdmissibleRun(w, steps)
    ensures WorldOk(Run(w, steps)) && w.s.disk.enqueued <= Run(w, steps).s.disk.enqueued
    ensures forall i :: |w.s.disk.enqueued| <= i < |Run(w, steps).s.disk.enqueued| ==>
                          Run(w, steps).s.disk.enqueued[i] !in SpentBy(w.facts)
    decreases |steps|
  {
    hide Advance, Admissible, WorldOk, SpentBy;
    if steps != [] {
      StepOk(w, steps[0]);
      StepAddsUnspent(w, steps[0]);
      RunAddsUnspent(Advance(w, steps[0]), steps[1..]);
    }
  }

  lemma StepOk(w: World, step: Step)
    requires WorldOk(w) && Admissible(w, step)
    ensures WorldOk(Advance(w, step))
  {
    if step.Crash? {
      CrashOk(w, step);
    } else {
      CompleteOk(w, step);
    }
  }

  lemma PristineOk(w: World)
    requires Pristine(w)
    ensures WorldOk(w)
  {
  }

  lemma {:induction false} RunOk(w: World, steps: seq<Step>)
    requires WorldOk(w) && AdmissibleRun(w, steps)
    ensures WorldOk(Run(w, steps))
    decreases |steps|
  {
    if steps != [] {
      StepOk(w, steps[0]);
      RunOk(Advance(w, steps[0]), steps[1..]);
    }
  }

  /**
   * Revocation survives every crash: in any run, once a stop has reported a confirmed witness for an identity, no later
   * enable of it succeeds and no batch of it is ever offered for sending.
   */
  lemma RevocationSurvives(w: World, steps: seq<Step>, i: nat, j: nat)
    requires Pristine(w) && AdmissibleRun(w, steps)
    requires i < j < |Run(w, steps).facts| && Run(w, steps).facts[i].Refused?
    ensures var facts := Run(w, steps).facts;
            facts[j] != Authorized(facts[i].id) &&
            (facts[j].Offered? ==> facts[j].batch.context != facts[i].id)
  {
    PristineOk(w);
    RunOk(w, steps);
  }

  /** Exactly-once sequencing: two offers under one producer and sequence are the same batch in every run. */
  lemma OffersAgree(w: World, steps: seq<Step>, b: Batch, c: Batch)
    requires Pristine(w) && AdmissibleRun(w, steps)
    requires Offered(b) in Run(w, steps).facts && Offered(c) in Run(w, steps).facts
    requires b.producer == c.producer && b.sequence == c.sequence
    ensures b == c
  {
    PristineOk(w);
    RunOk(w, steps);
  }

  /** The durable batches of every producer are numbered 1, 2, 3, ... without gaps, at every reachable disk. */
  lemma SequencesHaveNoGaps(w: World, steps: seq<Step>, b: Batch, k: nat)
    requires Pristine(w) && AdmissibleRun(w, steps)
    requires b in Run(w, steps).s.disk.enqueued && 1 <= k < b.sequence
    ensures exists c :: c in Run(w, steps).s.disk.enqueued && c.producer == b.producer && c.sequence == k
  {
    PristineOk(w);
    RunOk(w, steps);
    var enqueued := Run(w, steps).s.disk.enqueued;
    assert Covers(enqueued, b.producer, k);
    var c :| c in enqueued && c.producer == b.producer && c.sequence == k;
  }

  /**
   * Once offered or acknowledged, a batch is never made durable again: whatever calls and crashes follow, every batch
   * that becomes durable after that is a different one.
   */
  lemma SpentNeverDurableAgain(w: World, before: seq<Step>, after: seq<Step>, b: Batch, i: nat)
    requires Pristine(w) && AdmissibleRun(w, before) && AdmissibleRun(Run(w, before), after)
    requires Offered(b) in Run(w, before).facts || Acknowledged(b) in Run(w, before).facts
    requires i < |Run(Run(w, before), after).s.disk.enqueued|
    requires Run(Run(w, before), after).s.disk.enqueued[i] == b
    ensures i < |Run(w, before).s.disk.enqueued|
  {
    PristineOk(w);
    RunOk(w, before);
    RunAddsUnspent(Run(w, before), after);
    assert b in SpentBy(Run(w, before).facts);
  }

  /** An open after any run finds no corrupt state, no unexplained outbox and no orphan or duplicate batch. */
  lemma ReopenNeverInconsistent(w: World, steps: seq<Step>, clk: nat, stale: bool)
    requires Pristine(w) && AdmissibleRun(w, steps) && Run(w, steps).s.clk <= clk
    ensures Open(Begin(Run(w, steps).s, clk), stale).result !in {StateCorrupt, StateMissing, Inconsistent}
  {
    PristineOk(w);
    RunOk(w, steps);
    hide Inv, Open;
    var last := Run(w, steps);
    BeginSafe(last.s, clk, PromiseOf(last));
    OpenSafe(Begin(last.s, clk), stale, PromiseOf(last).(clk := clk));
  }

  /**
   * At every reachable disk, whatever crashed before, an identity whose refusal was reported is still refused: by the
   * marker, or by the archive or the revoked context of the saved state.
   */
  lemma ReportedStaysSealed(w: World, steps: seq<Step>, id: Identity)
    requires Pristine(w) && AdmissibleRun(w, steps)
    requires Refused(id) in Run(w, steps).facts
    ensures Sealed(Run(w, steps).s.disk, id)
  {
    PristineOk(w);
    RunOk(w, steps);
    var last := Run(w, steps);
    hide Run, AdmissibleRun, DiskOk, MemOk, Strict, RefusalsKept;
    assert id in SealedBy(last.facts);
  }

  /**
   * In every run a revoked context of an open coordinator is fully bound, so that rebinding archives it: the lifecycle
   * never meets the one kind of revocation that rebinding forgets.
   */
  lemma RevokedIsBound(w: World, steps: seq<Step>)
    requires Pristine(w) && AdmissibleRun(w, steps)
    ensures var m := Run(w, steps).s.m;
            m.isOpen && m.life.state == Revoked ==> m.life.context.Bound()
  {
    hide Run, AdmissibleRun, RefusalsKept, Inv;
    PristineOk(w);
    RunOk(w, steps);
    RevokedContextBound(Run(w, steps).s, PromiseOf(Run(w, steps)));
  }

  lemma RevokedContextBound(s: Sys, p: Promise)
    requires Inv(s, p)
    ensures s.m.isOpen && s.m.life.state == Revoked ==> s.m.life.context.Bound()
  {
    hide Good, Tracked, ArchiveOk, Strict;
    if s.m.isOpen && s.m.life.state == Revoked {
      ValidIsBound(s.m.context);
    }
  }

  // ---- the premises of these theorems are reachable ----

  /** The next `n` attempts at a durable operation succeed. */
  ghost predicate Works(s: Sys, n: nat) {
    forall t :: s.tick <= t < s.tick + n ==> s.env(t) == Fault(true, false, false)
  }

  predicate Idle(m: Mem) {
    && m.isOpen && m.boxOpen && m.box == EMPTY_BOX && m.pending.None? && !m.dirty && !m.cleanup
    && m.lossFirst == m.droppedSamples == m.droppedBatches == m.notAuthorized == 0
  }

  /** One call took `n` successful durable operations and made no batch durable. */
  ghost predicate Spends(s: Sys, t: Sys, n: nat) {
    && t.tick == s.tick + n && t.env == s.env && t.cfg == s.cfg && t.clk == s.clk
    && t.disk.enqueued == s.disk.enqueued && t.disk.blocked == s.disk.blocked
  }

  lemma IdleFlush(s: Sys, now: nat)
    requires Idle(s.m)
    ensures Flush(s, now) == R(s, true)
  {
    var t := Now(s, now);
    assert ExpireLoss(s, t) == s && Settle(s) == R(s, true);
    assert FinishPending(s, t) == R(s, true);
  }

  lemma FirstOpen(s: Sys)
    requires Works(s, 2) && s.m == BOOT && s.disk == Disk(None, None, false, false, [])
    ensures var o := Open(s, false);
            o.result == Opened && Idle(o.s.m) && o.s.m.life == FRESH && o.s.m.context == UNBOUND && Spends(s, o.s, 2)
  {
    hide Flush;
    var first := Fresh(s.(m := s.m.(pathKnown := true)));
    var w := WriteState(first);
    assert w.ok && w.s.m == first.m && w.s.disk.outbox.None? && !w.s.disk.scrubMarker;
    var b := OpenBox(w.s, false);
    assert b.ok && b.s.m == w.s.m.(boxOpen := true, box := EMPTY_BOX);
    var ready := b.s.(m := b.s.m.(isOpen := true, cleanup := b.s.m.life.state == Revoked));
    assert Consistent(ready.m);
    IdleFlush(ready, 0);
  }

  lemma FirstEnable(s: Sys, id: Identity, producer: Producer)
    requires Works(s, 1) && Idle(s.m) && s.m.life == FRESH && s.m.context == UNBOUND
    requires id.Valid() && HasNonzero(producer)
    ensures var r := ServerEnable(s, id, Some(producer));
            r.ok && Idle(r.s.m) && r.s.m.context == id && r.s.m.life.state == Enabled && r.s.m.producer == producer &&
            r.s.m.nextSeq == 1 && Spends(s, r.s, 1)
  {
    hide Flush, Identity.Valid, HasNonzero;
    IdleFlush(s, 0);
    ValidIsBound(id);
    assert !FRESH.IsRevoked(id) && FRESH.CanSetContext(id) && UNBOUND.Empty();
    var n := NewContext(s, id, producer);
    assert n.m.life == Life(id, Disabled, []);
    assert n.m.life.AcceptsEnable(id);
  }

  lemma FirstStop(s: Sys)
    requires Works(s, 1) && Idle(s.m) && s.m.context.Bound()
    ensures WitnessConfirmed(ExplicitStop(s).o)
  {
    hide Flush;
    var s1 := Stopping(s);
    var w := WriteState(s1);
    assert w.ok;
    var observed := w.s.(o := w.s.o.SetWitness(ProtectedStateConfirmed).SetPublication(CurrentStateConfirmed));
    StopFlush(observed, s.clk);
  }

  lemma StopFlush(s: Sys, now: nat)
    requires s.m.pending.None? && s.m.lossFirst == 0 && !s.m.dirty && s.o.stop.Some?
    ensures Flush(s, now).s.o.stop.Some? && Flush(s, now).s.o.stop.value.durable == s.o.stop.value.durable
  {
    hide Reopen, Purge, RemoveMarker;
    var t := Now(s, now);
    assert ExpireLoss(s, t) == s;
    var settled := Settle(s);
    CleanUpKeepsWitness(s);
    assert FinishPending(settled.s, t) == R(settled.s, true);
  }

  lemma CleanUpKeepsWitness(s: Sys)
    requires s.o.stop.Some?
    ensures CleanUp(s).s.o.stop.Some? && CleanUp(s).s.o.stop.value.durable == s.o.stop.value.durable
  {
    hide Reopen, Purge, RemoveMarker;
    assert RemoveMarker(Purge(Reopen(s).s).s).s.o == s.o by {
      MarkerKeepsObserver(Purge(Reopen(s).s).s);
    }
  }

  lemma MarkerKeepsObserver(s: Sys)
    ensures RemoveMarker(s).s.o == s.o
  {
  }

  /** A run in which an identity is authorized, stopped and reported as refused: the premises above can be met. */
  lemma StopCanBeReported(w: World, id: Identity, producer: Producer)
    requires Pristine(w) && Works(w.s, 4) && id.Valid() && HasNonzero(producer)
    ensures var steps := [Complete(w.s.clk, DoOpen(false)), Complete(w.s.clk, DoEnable(id, Some(producer))),
                          Complete(w.s.clk, DoStop)];
            AdmissibleRun(w, steps) && Run(w, steps).facts == [Authorized(id), Refused(id)]
  {
    hide Open, ServerEnable, ExplicitStop, Identity.Valid, HasNonzero;
    var clk := w.s.clk;
    var open, enable := Complete(clk, DoOpen(false)), Complete(clk, DoEnable(id, Some(producer)));
    var stop := Complete(clk, DoStop);
    FirstOpen(Begin(w.s, clk));
    var w1 := Advance(w, open);
    assert Admissible(w, open) && Admissible(w1, enable);
    FirstEnable(Begin(w1.s, clk), id, producer);
    var w2 := Advance(w1, enable);
    assert w2.facts == [Authorized(id)];
    ValidIsBound(id);
    FirstStop(Begin(w2.s, clk));
    var w3 := Advance(w2, stop);
    assert w3.facts == [Authorized(id), Refused(id)];
    RunOfThree(w, open, enable, stop);
  }

  lemma RunOfThree(w: World, a: Step, b: Step, c: Step)
    ensures var w1 := Advance(w, a);
            var w2 := Advance(w1, b);
            && Run(w, [a, b, c]) == Advance(w2, c)
            && AdmissibleRun(w, [a, b, c]) == (Admissible(w, a) && Admissible(w1, b) && Admissible(w2, c))
  {
    hide Advance, Admissible;
    var w1 := Advance(w, a);
    var w2 := Advance(w1, b);
    assert [a, b, c] == [a] + [b, c];
    assert [b, c] == [b] + [c];
    assert [c] + [] == [c];
    RunStep(w, a, [b, c]);
    RunStep(w1, b, [c]);
    RunStep(w2, c, []);
  }

  lemma {:induction false} RunThen(w: World, steps: seq<Step>, last: Step)
    ensures Run(w, steps + [last]) == Advance(Run(w, steps), last)
    ensures AdmissibleRun(w, steps + [last]) == (AdmissibleRun(w, steps) && Admissible(Run(w, steps), last))
    decreases |steps|
  {
    hide Advance, Admissible;
    if steps == [] {
      assert steps + [last] == [last] + [];
      RunStep(w, last, []);
    } else {
      var next := Advance(w, steps[0]);
      assert steps + [last] == [steps[0]] + (steps[1..] + [last]) && steps == [steps[0]] + steps[1..];
      RunStep(w, steps[0], steps[1..] + [last]);
      RunStep(w, steps[0], steps[1..]);
      RunThen(next, steps[1..], last);
    }
  }

  lemma RunStep(w: World, first: Step, rest: seq<Step>)
    ensures Run(w, [first] + rest) == Run(Advance(w, first), rest)
    ensures AdmissibleRun(w, [first] + rest) == (Admissible(w, first) && AdmissibleRun(Advance(w, first), rest))
  {
    hide Advance, Admissible;
    assert ([first] + rest)[1..] == rest;
  }
}
