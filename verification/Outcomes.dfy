/** What one coordinator call reports about itself, and how competing failures are ranked. */
module Outcomes {
  import opened Bytes
  import opened Lifecycle

  datatype Applicability = NotOpen | NotBound | Applicable
  datatype MemoryRevocation = NotApplicable | RevokedNow | AlreadyRevoked
  datatype Witness = WitnessNotAttempted | ProtectedStateConfirmed | RefusalMarkerConfirmed | WitnessUnconfirmed
  datatype Cleanup = CleanupNotNeeded | CleanupComplete | CleanupPending
  datatype Failure =
    | NoFailure | StateFailed | RevocationUnconfirmed | CleanupFailed | PendingConflict | EnqueueUnfinished

  datatype StopOutcome = StopOutcome(
    applicability: Applicability, memory: MemoryRevocation, durable: Witness, cleanup: Cleanup, error: Failure)

  const STOP_OUTCOME := StopOutcome(NotOpen, NotApplicable, WitnessNotAttempted, CleanupNotNeeded, NoFailure)

  datatype Observed = ObservedClosed | ObservedOpen(state: State)
  datatype PendingFate = PendingNotPresent | PendingRetained | PendingCompleted | RevokedExpired | RevokedAgeUncertain
  datatype Publication =
    | PublicationNotAttempted | CurrentStateConfirmed | EarlierSnapshotConfirmed | MarkerConfirmed
    | PublicationUnconfirmed

  /** Shared by disconnect, service shutdown and close. */
  datatype FlushOutcome = FlushOutcome(
    before: Observed, after: Observed, pending: PendingFate, publication: Publication, cleanup: Cleanup,
    failure: Failure)

  const FLUSH_OUTCOME := FlushOutcome(
    ObservedClosed, ObservedClosed, PendingNotPresent, PublicationNotAttempted, CleanupNotNeeded, NoFailure)

  function Severity(f: Failure): nat {
    match f
    case NoFailure => 0
    case EnqueueUnfinished => 1
    case PendingConflict => 1
    case CleanupFailed => 2
    case StateFailed => 3
    case RevocationUnconfirmed => 4
  }

  /** A stop can only fail in its witness, its state write or its cleanup. */
  predicate StopFailure(f: Failure) {
    f == RevocationUnconfirmed || f == StateFailed || f == CleanupFailed
  }

  function StopPriority(current: Failure, f: Failure): Failure {
    if current == NoFailure || f == RevocationUnconfirmed || (f == StateFailed && current == CleanupFailed)
    then f else current
  }

  function FlushPriority(current: Failure, f: Failure): Failure {
    if current == NoFailure || f == RevocationUnconfirmed ||
       (f == StateFailed && current != RevocationUnconfirmed) ||
       (f == CleanupFailed && (current == PendingConflict || current == EnqueueUnfinished))
    then f else current
  }

  /** The outcome pointers a call may carry, with the failures recorded through each of them in order. */
  datatype Observer = Observer(
    stop: Option<StopOutcome>, flush: Option<FlushOutcome>, stopLog: seq<Failure>, flushLog: seq<Failure>)
  {
    function FailStop(f: Failure): Observer {
      if stop.None? then this
      else this.(stop := Some(stop.value.(error := StopPriority(stop.value.error, f))), stopLog := stopLog + [f])
    }

    function FailFlush(f: Failure): Observer {
      if flush.None? then this
      else this.(flush := Some(flush.value.(failure := FlushPriority(flush.value.failure, f))),
                 flushLog := flushLog + [f])
    }

    function Fail(f: Failure): Observer {
      FailStop(f).FailFlush(f)
    }

    function SetWitness(w: Witness): Observer {
      if stop.None? then this else this.(stop := Some(stop.value.(durable := w)))
    }

    function SetStopCleanup(c: Cleanup): Observer {
      if stop.None? then this else this.(stop := Some(stop.value.(cleanup := c)))
    }

    function SetPublication(p: Publication): Observer {
      if flush.None? then this else this.(flush := Some(flush.value.(publication := p)))
    }

    /** A failed writer never hides an earlier publication fact. */
    function PublicationFailed(): Observer {
      if flush.Some? && flush.value.publication == PublicationNotAttempted
      then SetPublication(PublicationUnconfirmed) else this
    }

    function SetFlushCleanup(c: Cleanup): Observer {
      if flush.None? then this else this.(flush := Some(flush.value.(cleanup := c)))
    }

    function SetPending(p: PendingFate): Observer {
      if flush.None? then this else this.(flush := Some(flush.value.(pending := p)))
    }

    /** Both outcomes hold the first failure of the highest severity recorded so far. */
    ghost predicate Ranked() {
      && (stop.Some? ==> stop.value.error == Highest(stopLog))
      && (flush.Some? ==> flush.value.failure == Highest(flushLog))
      && (forall f :: f in stopLog ==> StopFailure(f))
      && (forall f :: f in flushLog ==> f != NoFailure)
    }
  }

  const UNOBSERVED := Observer(None, None, [], [])

  /** The first failure of maximal severity. */
  function Highest(log: seq<Failure>): (f: Failure)
    ensures forall g :: g in log ==> Severity(g) <= Severity(f)
    ensures if log == [] then f == NoFailure else f in log
    ensures forall i :: 0 <= i < |log| && (forall j :: 0 <= j < i ==> log[j] != f) && log[i] != f ==>
                          Severity(log[i]) < Severity(f)
  {
    if log == [] then NoFailure
    else
      var init := log[..|log| - 1];
      var last := log[|log| - 1];
      var best := Highest(init);
      assert forall i :: 0 <= i < |init| ==> log[i] == init[i];
      if init == [] || Severity(last) > Severity(best) then last else best
  }

  lemma HighestPush(log: seq<Failure>, f: Failure)
    requires f != NoFailure
    ensures Highest(log + [f]) == if Severity(f) > Severity(Highest(log)) then f else Highest(log)
  {
    assert (log + [f])[..|log|] == log;
  }

  /** Both ranking functions keep the more severe failure, and the earlier one of two equally severe. */
  lemma PrioritiesFollowSeverity(current: Failure, f: Failure)
    requires f != NoFailure
    ensures FlushPriority(current, f) == if Severity(f) > Severity(current) then f else current
    ensures StopFailure(f) && (StopFailure(current) || current == NoFailure) ==>
              StopPriority(current, f) == if Severity(f) > Severity(current) then f else current
  {
  }

  lemma RecordingFlushKeepsRanked(o: Observer, f: Failure)
    requires o.Ranked() && f != NoFailure
    ensures o.FailFlush(f).Ranked()
  {
    if o.flush.Some? {
      HighestPush(o.flushLog, f);
      PrioritiesFollowSeverity(o.flush.value.failure, f);
    }
  }

  /** Recording one more failure keeps both outcomes ranked. */
  lemma RecordingKeepsRanked(o: Observer, f: Failure)
    requires o.Ranked() && StopFailure(f)
    ensures o.Fail(f).Ranked()
  {
    if o.stop.Some? {
      HighestPush(o.stopLog, f);
      PrioritiesFollowSeverity(o.stop.value.error, f);
      assert o.FailStop(f).Ranked();
    }
    RecordingFlushKeepsRanked(o.FailStop(f), f);
  }
}
