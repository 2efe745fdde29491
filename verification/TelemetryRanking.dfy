/** The failure left in an outcome is the most severe one recorded anywhere in the tree of recursive calls. */
module TelemetryRanking {
  import opened Bytes
  import opened Lifecycle
  import opened Outcomes
  import opened TelemetryModel

  lemma PublishRanked(s: Sys)
    requires s.o.Ranked()
    ensures Publish(s).s.o.Ranked()
  {
    hide Highest, StopPriority, FlushPriority;
    RecordingKeepsRanked(s.o, StateFailed);
    RankedObserver(s.o.Fail(StateFailed));
    RankedObserver(s.o);
  }

  /** Facts other than failures do not disturb the ranking. */
  lemma RankedObserver(o: Observer)
    requires o.Ranked()
    ensures forall x :: o.SetWitness(x).Ranked()
    ensures forall x :: o.SetStopCleanup(x).Ranked() && o.SetFlushCleanup(x).Ranked()
    ensures forall x :: o.SetPublication(x).Ranked()
    ensures forall x :: o.SetPending(x).Ranked()
    ensures o.PublicationFailed().Ranked()
  {
    hide Highest;
  }

  lemma CleanUpRanked(s: Sys)
    requires s.o.Ranked()
    ensures CleanUp(s).s.o.Ranked()
  {
    hide OpenBox, Purge, Observer.Ranked, Observer.Fail, Observer.SetStopCleanup, Observer.SetFlushCleanup;
    RecordingKeepsRanked(s.o, CleanupFailed);
    RankedObserver(s.o);
    RankedObserver(s.o.SetStopCleanup(CleanupComplete));
  }

  lemma SettleRanked(s: Sys)
    requires s.o.Ranked()
    ensures Settle(s).s.o.Ranked()
  {
    hide Publish, CleanUp, Observer.Ranked;
    PublishRanked(s);
    var published := if s.m.dirty then Publish(s) else R(s, true);
    CleanUpRanked(published.s);
  }

  lemma CompletePendingRanked(s: Sys)
    requires s.o.Ranked()
    ensures CompletePending(s).s.o.Ranked()
  {
    hide Observer.Ranked, Observer.FailFlush, Observer.SetPending, Observer.SetPublication, Observer.PublicationFailed;
    RankedObserver(s.o);
    var o := s.o.SetPending(PendingCompleted);
    RankedObserver(o);
    RecordingFlushKeepsRanked(o, StateFailed);
    RankedObserver(o.FailFlush(StateFailed));
  }

  lemma FallbackRanked(s: Sys)
    requires s.o.Ranked()
    ensures RevocationFallback(s).o.Ranked()
  {
    hide Purge, Observer.Ranked, Observer.Fail, Observer.SetWitness, Observer.SetPublication,
      Observer.PublicationFailed;
    RecordingKeepsRanked(s.o, StateFailed);
    RankedObserver(s.o.Fail(StateFailed));
    var o := s.o.Fail(StateFailed).PublicationFailed();
    RankedObserver(o);
    RankedObserver(o.SetWitness(RefusalMarkerConfirmed));
    RecordingKeepsRanked(o.SetWitness(WitnessUnconfirmed), RevocationUnconfirmed);
    var s1 := s.(o := o);
    var k := WriteMarker(s1);
    var o2 :=
      if k.ok then o.SetWitness(RefusalMarkerConfirmed).SetPublication(MarkerConfirmed)
      else o.SetWitness(WitnessUnconfirmed).Fail(RevocationUnconfirmed);
    assert k.s.o == o;
    RecordingKeepsRanked(o2, CleanupFailed);
  }

  lemma PersistRevocationRanked(s: Sys, now: nat)
    requires s.o.Ranked()
    ensures PersistRevocation(s, now).s.o.Ranked()
    decreases if s.m.pending.Some? then 1 else 0, 3
  {
    hide Observer.Ranked, Observer.SetWitness, Observer.SetPublication, RevocationFallback;
    var w := WriteState(s);
    RankedObserver(s.o);
    RankedObserver(s.o.SetWitness(ProtectedStateConfirmed));
    if w.ok {
      FlushRanked(w.s.(o := w.s.o.SetWitness(ProtectedStateConfirmed).SetPublication(CurrentStateConfirmed)), now);
    } else {
      FallbackRanked(w.s);
    }
  }

  lemma RevokePendingRanked(s: Sys, now: nat)
    requires s.o.Ranked()
    ensures RevokePending(s, now).s.o.Ranked()
    decreases 1, 0
  {
    hide Highest, PersistRevocation;
    RankedObserver(s.o);
    hide CountDropped;
    var revoking := Revoking(s, now);
    assert revoking.o == s.o.SetFlushCleanup(CleanupPending);
    hide Revoking;
    PersistRevocationRanked(revoking.(o := revoking.o.(stop := None)), now);
  }

  lemma FinishPendingRanked(s: Sys, now: nat)
    requires s.o.Ranked()
    ensures FinishPending(s, now).s.o.Ranked()
    decreases if s.m.pending.Some? then 1 else 0, 1
  {
    hide Observer.Ranked, Observer.FailFlush, Observer.SetPending, Enqueue, CompletePending, RevokePending, FindBatch,
      LossOf;
    if s.m.pending.Some? {
      RankedObserver(s.o);
      RecordingFlushKeepsRanked(s.o, PendingConflict);
      RecordingFlushKeepsRanked(s.o, EnqueueUnfinished);
      RevokePendingRanked(s.(o := s.o.SetPending(RevokedAgeUncertain)), Now(s, now));
      CompletePendingRanked(s);
      CompletePendingRanked(Enqueue(s, s.m.pending.value).s);
    }
  }

  /** Whatever fails during a flush, both outcomes end with the first failure of the highest severity recorded. */
  lemma FlushRanked(s: Sys, now: nat)
    requires s.o.Ranked()
    ensures Flush(s, now).s.o.Ranked()
    decreases if s.m.pending.Some? then 1 else 0, 2
  {
    hide Observer.Ranked, Observer.SetPending, Settle, FinishPending, RevokePending;
    var t := Now(s, now);
    var s1 := ExpireLoss(s, t);
    RankedObserver(s.o);
    if PendingExpired(s1.m, t) {
      RevokePendingRanked(s1.(o := s1.o.SetPending(RevokedExpired)), t);
    } else {
      SettleRanked(s1);
      FinishPendingRanked(Settle(s1).s, t);
    }
  }

  /** Every report of a public call names the most severe failure recorded during it. */
  lemma ReportsRanked(s: Sys)
    requires s.m.isOpen
    ensures ExplicitStop(s).o.Ranked() && ServerDisconnect(s).o.Ranked() && Close(s).o.Ranked()
  {
    hide Flush, PersistRevocation;
    var stopping := s.(m := s.m.(life := s.m.life.Stop(), pending := None, pendingStarted := 0, cleanup := true,
                                 dirty := true),
                       o := UNOBSERVED.(stop := Some(STOP_OUTCOME.(
                         applicability := Applicable, cleanup := CleanupPending,
                         memory := if s.m.life.state == Revoked then AlreadyRevoked else RevokedNow))));
    PersistRevocationRanked(stopping, s.clk);
    FlushRanked(s.(m := s.m.(life := s.m.life.Disconnect(), dirty := true),
                   o := UNOBSERVED.(flush := Some(EnterFlush(s.m)))), 0);
    FlushRanked(s.(o := UNOBSERVED.(flush := Some(EnterFlush(s.m)))), 0);
  }
}
