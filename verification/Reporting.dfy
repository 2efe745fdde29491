/** The stop, disconnect and shutdown/close reporters: one notice per failure epoch, whatever the sinks throw. */
module Reporting {
  import opened Bytes
  import opened Outcomes
  import opened TelemetryReports

  /** What the environment does to one report: lock, build the notice and its debug line, accept either sink. */
  datatype Luck = Luck(locked: bool, notice: bool, line: bool, debug: bool, audit: bool)

  const PERFECT := Luck(true, true, true, true, true)

  datatype Effect<+K> = Debugged(key: K) | Audited(key: K) | Emergency

  datatype Epoch<+K> = Epoch(
    key: Option<K>, debugAttempted: bool, auditAccepted: bool, emergencyAttempted: bool, log: seq<Effect<K>>)

  datatype Report<+K> = Report(disposition: Disposition, key: K, luck: Luck)

  function Alarm<K>(e: Epoch<K>): Epoch<K> {
    if e.emergencyAttempted then e else e.(emergencyAttempted := true, log := e.log + [Emergency])
  }

  function Reset<K>(e: Epoch<K>): Epoch<K> {
    Epoch(None, false, false, false, e.log)
  }

  function Enter<K(==)>(e: Epoch<K>, key: K): Epoch<K> {
    if e.key == Some(key) then e else Epoch(Some(key), false, false, false, e.log)
  }

  function Audit<K>(e: Epoch<K>, key: K, luck: Luck): Epoch<K> {
    if luck.audit then e.(auditAccepted := true, log := e.log + [Audited(key)]) else Alarm(e)
  }

  /** One attempt at both sinks. A `coupled` reporter skips the audit when the debug line cannot be built. */
  function Attempt<K>(e: Epoch<K>, key: K, luck: Luck, coupled: bool): Epoch<K> {
    if !luck.notice then Alarm(e)
    else if e.debugAttempted then Audit(e, key, luck)
    else if !luck.line then (if coupled then Alarm(e) else Audit(Alarm(e), key, luck))
    else
      var shown := e.(debugAttempted := true, log := e.log + [Debugged(key)]);
      Audit(if luck.debug then shown else Alarm(shown), key, luck)
  }

  function Observe<K(==)>(e: Epoch<K>, r: Report<K>, coupled: bool): Epoch<K> {
    if r.disposition == NoApplicableWork || !r.luck.locked then e
    else if r.disposition == ReportComplete then Reset(e)
    else
      var entered := Enter(e, r.key);
      if entered.auditAccepted then entered else Attempt(entered, r.key, r.luck, coupled)
  }

  function ObserveAll<K(==)>(e: Epoch<K>, rs: seq<Report<K>>, coupled: bool): Epoch<K>
    decreases |rs|
  {
    if rs == [] then e else ObserveAll(Observe(e, rs[0], coupled), rs[1..], coupled)
  }

  // ---- one notice per epoch ----

  /** Nothing in these reports ends the failure epoch of `key`: no completion, and no other failure. */
  predicate WithinEpoch<K(==)>(rs: seq<Report<K>>, key: K) {
    forall r :: r in rs ==>
      r.disposition == NoApplicableWork || !r.luck.locked || (r.disposition != ReportComplete && r.key == key)
  }

  predicate Perfect(r: Report) {
    r.disposition != NoApplicableWork && r.luck == PERFECT
  }

  function Times<K(==)>(log: seq<Effect<K>>, effect: Effect<K>): nat {
    if log == [] then 0 else (if log[|log| - 1] == effect then 1 else 0) + Times(log[..|log| - 1], effect)
  }

  lemma TimesPush<K>(log: seq<Effect<K>>, pushed: Effect<K>, effect: Effect<K>)
    ensures Times(log + [pushed], effect) == Times(log, effect) + if pushed == effect then 1 else 0
  {
    assert (log + [pushed])[..|log|] == log;
  }

  function AsCount(b: bool): nat {
    if b then 1 else 0
  }

  lemma AlarmCounts<K>(e: Epoch<K>, key: K)
    ensures var f := Alarm(e);
            f == e.(emergencyAttempted := true, log := f.log) &&
            Times(f.log, Debugged(key)) == Times(e.log, Debugged(key)) &&
            Times(f.log, Audited(key)) == Times(e.log, Audited(key)) &&
            Times(f.log, Emergency) == Times(e.log, Emergency) + AsCount(!e.emergencyAttempted)
  {
    TimesPush(e.log, Emergency, Debugged(key));
    TimesPush(e.log, Emergency, Audited(key));
    TimesPush(e.log, Emergency, Emergency);
  }

  /** One report inside the epoch raises each counter by exactly what it raises the matching flag. */
  ghost predicate Accounts<K>(e: Epoch<K>, f: Epoch<K>, key: K) {
    && (e.debugAttempted ==> f.debugAttempted) && (e.auditAccepted ==> f.auditAccepted)
    && (e.emergencyAttempted ==> f.emergencyAttempted)
    && Times(f.log, Debugged(key)) + AsCount(e.debugAttempted) ==
       Times(e.log, Debugged(key)) + AsCount(f.debugAttempted)
    && Times(f.log, Audited(key)) + AsCount(e.auditAccepted) == Times(e.log, Audited(key)) + AsCount(f.auditAccepted)
    && Times(f.log, Emergency) + AsCount(e.emergencyAttempted) ==
       Times(e.log, Emergency) + AsCount(f.emergencyAttempted)
  }

  lemma AuditAccounts<K>(e: Epoch<K>, key: K, luck: Luck)
    requires !e.auditAccepted
    ensures Accounts(e, Audit(e, key, luck), key) && Audit(e, key, luck).key == e.key
    ensures luck.audit <==> Audit(e, key, luck).auditAccepted
  {
    AlarmCounts(e, key);
    TimesPush(e.log, Audited(key), Debugged(key));
    TimesPush(e.log, Audited(key), Audited(key));
    TimesPush(e.log, Audited(key), Emergency);
  }

  lemma AttemptAccounts<K>(e: Epoch<K>, key: K, luck: Luck, coupled: bool)
    requires !e.auditAccepted
    ensures Accounts(e, Attempt(e, key, luck, coupled), key) && Attempt(e, key, luck, coupled).key == e.key
    ensures luck == PERFECT ==> Attempt(e, key, luck, coupled).auditAccepted
  {
    AlarmCounts(e, key);
    if luck.notice {
      if e.debugAttempted {
        AuditAccounts(e, key, luck);
      } else if !luck.line {
        AuditAccounts(Alarm(e), key, luck);
      } else {
        var shown := e.(debugAttempted := true, log := e.log + [Debugged(key)]);
        TimesPush(e.log, Debugged(key), Debugged(key));
        TimesPush(e.log, Debugged(key), Audited(key));
        TimesPush(e.log, Debugged(key), Emergency);
        AlarmCounts(shown, key);
        AuditAccounts(if luck.debug then shown else Alarm(shown), key, luck);
      }
    }
  }

  lemma {:induction false} EpochAccounts<K>(e: Epoch<K>, rs: seq<Report<K>>, key: K, coupled: bool)
    requires WithinEpoch(rs, key) && e.key == Some(key)
    ensures var f := ObserveAll(e, rs, coupled);
            && f.key == Some(key) && Accounts(e, f, key)
            && ((exists r :: r in rs && Perfect(r)) ==> f.auditAccepted)
    decreases |rs|
  {
    if rs != [] {
      var next := Observe(e, rs[0], coupled);
      assert rs == [rs[0]] + rs[1..];
      if !e.auditAccepted {
        AttemptAccounts(e, key, rs[0].luck, coupled);
      }
      EpochAccounts(next, rs[1..], key, coupled);
    }
  }

  /**
   * From the report that opens a failure epoch on, whatever the sinks do, the epoch yields at most one debug line, one
   * accepted audit and one emergency line, and one report without mishap is enough to get the audit through.
   */
  lemma OneNoticePerEpoch<K>(e: Epoch<K>, rs: seq<Report<K>>, key: K, coupled: bool)
    requires e.key != Some(key) && rs != [] && WithinEpoch(rs, key)
    requires rs[0].luck.locked && rs[0].disposition != NoApplicableWork
    ensures var f := ObserveAll(e, rs, coupled);
            && Times(f.log, Debugged(key)) == Times(e.log, Debugged(key)) + AsCount(f.debugAttempted)
            && Times(f.log, Audited(key)) == Times(e.log, Audited(key)) + AsCount(f.auditAccepted)
            && Times(f.log, Emergency) == Times(e.log, Emergency) + AsCount(f.emergencyAttempted)
            && ((exists r :: r in rs && Perfect(r)) ==> f.auditAccepted)
  {
    EpochAccounts(Enter(e, key), rs, key, coupled);
    assert Observe(Enter(e, key), rs[0], coupled) == Observe(e, rs[0], coupled);
  }

  /** The same failure is announced again exactly when something ended its epoch in between. */
  lemma RepeatedExactlyAfterReset<K>(e: Epoch<K>, between: Report<K>, key: K, coupled: bool)
    requires e.key == Some(key) && e.auditAccepted
    requires between.disposition == NoApplicableWork || between.disposition == ReportComplete || between.key != key
    ensures var again := Observe(Observe(e, between, coupled), Report(ObservedFailure, key, PERFECT), coupled);
            var before := Observe(e, between, coupled);
            Times(again.log, Audited(key)) == Times(before.log, Audited(key)) +
              AsCount(between.disposition != NoApplicableWork && between.luck.locked)
  {
    var before := Observe(e, between, coupled);
    if before.key == Some(key) {
      assert before == e;
    } else {
      OneNoticePerEpoch(before, [Report(ObservedFailure, key, PERFECT)], key, coupled);
      assert Perfect([Report(ObservedFailure, key, PERFECT)][0]);
      assert ObserveAll(before, [Report(ObservedFailure, key, PERFECT)], coupled) ==
             Observe(before, Report(ObservedFailure, key, PERFECT), coupled);
    }
  }

  // ---- three epochs side by side ----

  /** The shutdown/close reporter: one epoch for the dispatch itself and one for each operation. */
  datatype Trio = Trio(availability: Epoch<Dispatch>, shutdown: Epoch<FlushOutcome>, close: Epoch<FlushOutcome>)

  datatype Outcomes2 = Outcomes2(shutdown: FlushOutcome, close: FlushOutcome)

  datatype Notice = Notice(
    dispatch: Dispatch, outcome: Option<Outcomes2>, locked: bool, first: Luck, second: Luck)

  predicate Available(n: Notice) {
    n.dispatch == OutcomeCallback && n.outcome.Some?
  }

  function Locking(luck: Luck, locked: bool): Luck {
    luck.(locked := locked)
  }

  function AvailabilityReport(n: Notice): Report<Dispatch> {
    Report(if Available(n) then ReportComplete else Dispatched(n.dispatch, false, OutcomeUnavailable), n.dispatch,
           Locking(n.first, n.locked))
  }

  /** What an operation's own epoch sees of a notice: nothing when the outcomes are unavailable. */
  function ShutdownReport(n: Notice): seq<Report<FlushOutcome>> {
    if !Available(n) then []
    else [Report(ClassifyDisconnect(n.outcome.value.shutdown), n.outcome.value.shutdown, Locking(n.first, n.locked))]
  }

  function CloseReport(n: Notice): seq<Report<FlushOutcome>> {
    if !Available(n) then []
    else [Report(ClassifyClose(n.outcome.value.close), n.outcome.value.close, Locking(n.second, n.locked))]
  }

  function Receive(t: Trio, n: Notice): Trio {
    if !n.locked then t
    else if Available(n) then
      Trio(Reset(t.availability),
           Observe(t.shutdown, ShutdownReport(n)[0], false),
           Observe(t.close, CloseReport(n)[0], false))
    else t.(availability := Observe(t.availability, AvailabilityReport(n), false))
  }

  function ReceiveAll(t: Trio, ns: seq<Notice>): Trio
    decreases |ns|
  {
    if ns == [] then t else ReceiveAll(Receive(t, ns[0]), ns[1..])
  }

  function AvailabilityReports(ns: seq<Notice>): seq<Report<Dispatch>> {
    if ns == [] then [] else [AvailabilityReport(ns[0])] + AvailabilityReports(ns[1..])
  }

  function ShutdownReports(ns: seq<Notice>): seq<Report<FlushOutcome>> {
    if ns == [] then [] else ShutdownReport(ns[0]) + ShutdownReports(ns[1..])
  }

  function CloseReports(ns: seq<Notice>): seq<Report<FlushOutcome>> {
    if ns == [] then [] else CloseReport(ns[0]) + CloseReports(ns[1..])
  }

  /** The three epochs never disturb one another: each behaves as a reporter that sees only its own reports. */
  lemma {:induction false} EpochsIndependent(t: Trio, ns: seq<Notice>)
    ensures ReceiveAll(t, ns) ==
            Trio(ObserveAll(t.availability, AvailabilityReports(ns), false),
                 ObserveAll(t.shutdown, ShutdownReports(ns), false),
                 ObserveAll(t.close, CloseReports(ns), false))
    decreases |ns|
  {
    if ns != [] {
      EpochsIndependent(Receive(t, ns[0]), ns[1..]);
      if Available(ns[0]) {
        assert ShutdownReports(ns)[1..] == ShutdownReports(ns[1..]);
        assert CloseReports(ns)[1..] == CloseReports(ns[1..]);
      } else {
        assert ShutdownReports(ns) == ShutdownReports(ns[1..]);
        assert CloseReports(ns) == CloseReports(ns[1..]);
      }
      assert AvailabilityReports(ns)[1..] == AvailabilityReports(ns[1..]);
    }
  }

  // ---- the reporters as objects ----

  class Suppressor<K(==)> {
    const coupled: bool
    var key: Option<K>
    var debugAttempted: bool
    var auditAccepted: bool
    var emergencyAttempted: bool
    ghost var log: seq<Effect<K>>

    ghost function View(): Epoch<K>
      reads this
    {
      Epoch(key, debugAttempted, auditAccepted, emergencyAttempted, log)
    }

    constructor (coupled: bool)
      ensures View() == Epoch(None, false, false, false, []) && this.coupled == coupled
    {
      this.coupled := coupled;
      key, debugAttempted, auditAccepted, emergencyAttempted, log := None, false, false, false, [];
    }

    method Clear()
      modifies this
      ensures View() == Reset(old(View()))
    {
      key, debugAttempted, auditAccepted, emergencyAttempted := None, false, false, false;
    }

    method RaiseAlarm()
      modifies this`emergencyAttempted, this`log
      ensures View() == Alarm(old(View()))
    {
      if !emergencyAttempted {
        emergencyAttempted := true;
        log := log + [Emergency];
      }
    }

    method AttemptAudit(k: K, luck: Luck)
      modifies this`auditAccepted, this`emergencyAttempted, this`log
      ensures View() == Audit(old(View()), k, luck)
    {
      if luck.audit {
        auditAccepted := true;
        log := log + [Audited(k)];
      } else {
        RaiseAlarm();
      }
    }

    method AttemptSinks(k: K, luck: Luck)
      modifies this
      ensures View() == Attempt(old(View()), k, luck, coupled)
    {
      if !luck.notice {
        RaiseAlarm();
        return;
      }
      if !debugAttempted {
        if luck.line {
          debugAttempted := true;
          log := log + [Debugged(k)];
          if !luck.debug {
            RaiseAlarm();
          }
        } else {
          RaiseAlarm();
          if coupled {
            return;
          }
        }
      }
      AttemptAudit(k, luck);
    }

    method Receive(r: Report<K>)
      modifies this
      ensures View() == Observe(old(View()), r, coupled)
    {
      if r.disposition == NoApplicableWork || !r.luck.locked {
        return;
      }
      if r.disposition == ReportComplete {
        Clear();
        return;
      }
      if key != Some(r.key) {
        Clear();
        key := Some(r.key);
      }
      if !auditAccepted {
        AttemptSinks(r.key, r.luck);
      }
    }
  }

  class ShutdownCloseReporter {
    const availability: Suppressor<Dispatch>
    const shutdown: Suppressor<FlushOutcome>
    const close: Suppressor<FlushOutcome>

    ghost predicate Valid()
      reads this, availability, shutdown, close
    {
      shutdown != close && !availability.coupled && !shutdown.coupled && !close.coupled
    }

    ghost function View(): Trio
      reads this, availability, shutdown, close
    {
      Trio(availability.View(), shutdown.View(), close.View())
    }

    constructor ()
      ensures Valid() && fresh(availability) && fresh(shutdown) && fresh(close)
      ensures View() == Trio(Epoch(None, false, false, false, []), Epoch(None, false, false, false, []),
                             Epoch(None, false, false, false, []))
    {
      availability := new Suppressor(false);
      shutdown := new Suppressor(false);
      close := new Suppressor(false);
    }

    method Report(n: Notice)
      requires Valid()
      modifies availability, shutdown, close
      ensures Valid() && View() == Receive(old(View()), n)
    {
      if !n.locked {
        return;
      }
      if Available(n) {
        availability.Clear();
        shutdown.Receive(ShutdownReport(n)[0]);
        close.Receive(CloseReport(n)[0]);
      } else {
        availability.Receive(AvailabilityReport(n));
      }
    }
  }
}
