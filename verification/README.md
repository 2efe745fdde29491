# Exam telemetry and delivery: a verified model

This project models the parts of the NSTU client whose guarantees are claims over whole runs, and proves those claims.
`dafny verify dfyconfig.toml` checks everything.

**The telemetry coordinator** is a small write-ahead-log protocol over three durable objects: the protected state file,
the outbox and a refusal marker whose existence blocks every open.
`TelemetryModel.dfy` describes each operation as a function on one system value: memory, disk, an arbitrary pattern of
storage failures, and the journal of durable states passed through. `Coordinator.dfy` is the coordinator as the service
runs it, a class with fields, loops and mutually recursive routines; every method is proved equal to its function.
The recovery invariant is in `TelemetryInvariant.dfy`, its preservation by every routine in `TelemetrySafety.dfy` and by
every public call in `TelemetryCalls.dfy`. `TelemetryRuns.dfy` lets a crash follow any durable write of any call and
states what survives; `TelemetryReports.dfy`, `TelemetryRanking.dfy` and `TelemetryConservation.dfy` state what outcomes,
failures and counters mean; `TelemetryRecovery.dfy` says when an open succeeds, `TelemetryContents.dfy` which samples the
batches carry, `TelemetryPermission.dfy` when a batch may be offered, and `TelemetryProgress.dfy` what calls achieve on
working storage. `Lifecycle.dfy` holds the authorization lifecycle and its archive of revoked identities, `Outcomes.dfy`
the report records, and `Wire.dfy`, `StateCodec.dfy` and `StateReload.dfy` the bytes of the state file.
`Reporting.dfy` is the suppression of repeated notices by the three reporters.

**Answers**: `AnswerEvents.dfy` (events and the byte strings used as their keys), `AnswerOutbox.dfy` (the durable hash
chains of answers, rebasing and cumulative acknowledgement, as functions and as a class), `AnswerAcceptance.dfy`
(exactly which answers and acknowledgements it accepts, and what it stores) and `AnswerDelivery.dfy` (which pending
answer may be sent, how acknowledgements are matched, every interleaving with other threads).

**Independent parts**: `Json.dfy` (the bounded reader and the escaping at the browser boundary), `JsonGrammar.dfy` (the
language it accepts, and a printer), `BrowserClock.dfy` (anchor, startup, order and rate of browser samples),
`Bridge.dfy` (numbered commands and the enable slot), `ShortcutCounter.dfy` (the lock-free counter, all interleavings),
`ReplayProtection.dfy` (the authentication replay FIFO), `Sanitizer.dfy` (the redaction of public texts), `Secrets.dfy`
(what it hides, by shape), `Audit.dfy` (spool, chunk codec and rate limiter) and `Fleet.dfy` (write-filter status
reports). `Bytes.dfy` holds bytes and UTF-8.

Assumptions about the coordinator's surroundings: the clock is positive and never goes back, and one reading serves a
whole call; the store path is fixed; a producer candidate differs from the producer of every durable batch; a failed
atomic file write leaves the file as it was, while a marker that could not be confirmed may or may not exist and a failed
purge may or may not leave its scrub marker or delete its file.

What the proofs found about the code:

- An explicit stop forgets the samples of a pending batch without counting them as dropped, unlike every other way a
  pending batch is given up; it conserves exactly when nothing is pending (`TelemetryConservation.StopConservesIff`,
  with a reachable case in `TelemetryConservation.StopCanForget`).
- The guard against pipelining the answers of one context ends with the first negative answer: the next answer may then
  be sent, and its acknowledgement also retires the earlier one (`AnswerDelivery.EarlierRetiredUnacknowledged`). Exactly
  when the next answer is sent first is `AnswerDelivery.OvertakesIff`, exactly when an acknowledgement retires more than
  the answer it names is `AnswerOutbox.RetiresOneIff`.
- A stop whose state write and marker both fail while its purge deletes the outbox file, followed by a crash, leaves a
  disk on which no open ever succeeds again (`TelemetryRecovery.StopCanStrand`, `TelemetryRecovery.StrandedForever`);
  exactly when an open succeeds is `TelemetryRecovery.OpensIff`.
- Rebinding forgets the revocation of a context that was never fully bound (`Lifecycle.RebindKeepsRevocationIffBound`,
  `Lifecycle.UnboundRevocationForgotten`). The coordinator never reaches such a lifecycle
  (`TelemetryRuns.RevokedIsBound`).
- A `\u` escape of a surrogate is refused even as half of a pair, which section 7 of RFC 8259 allows
  (`Json.SurrogateEscapeRefused`); exactly which strings are readable is `Json.LiteralReadableIff`.
- White space also includes vertical tab and form feed, which JSON does not allow (`Json.SkippedBeyondJson`,
  `Json.VerticalTabAccepted`).
- An address behind the word "client" is taken for a client's number up to its first dot, and the rest of it comes out in
  clear (`Secrets.ClientAddressLeaks`); exactly when an address is hidden is `Secrets.AddressHiddenIff`.
- The comment on `peek_chunk` in `common/include/nstu/audit.hpp` promises that a peek fits one chunk; it does exactly for
  at most 48 records (`Audit.PublicPeekFitsIff`), and 49 full ones of harmless prose break it
  (`Audit.DefaultPeekOverflows`).
- The upload limiter admits everything at clock value 0, and keeps its bound exactly from clock value 1 on
  (`Audit.ZeroClockIsUnlimited`, `Audit.RateBoundIff`).
- The fleet encoder accepts reports its decoder refuses (`Fleet.DishonestReportsEncode`); exactly the honest ones survive
  (`Fleet.RoundTripIffHonest`).

## Model

| member | source | states |
|---|---|---|
| `Lifecycle.RevocationOnlyGrows` | client/src/exam_telemetry_lifecycle.cpp:33-86 | over every sequence of events a revoked bound identity stays revoked, the archive only grows by appending, never exceeds 16 entries, never holds a duplicate, and an archived current context is in state revoked |
| `Lifecycle.RebindKeepsRevocationIffBound` | client/src/exam_telemetry_lifecycle.cpp:63-86 | rebinding keeps an identity's revocation if and only if that identity was fully bound |
| `Lifecycle.UnboundRevocationForgotten` | client/src/exam_telemetry_lifecycle.cpp:63-158 | the failing case: a fresh lifecycle that is stopped and then bound is the one that was never stopped |
| `Lifecycle.RestartNeverEnables` | client/src/exam_telemetry_lifecycle.cpp:160-210 | no persisted byte restarts into enabled; a restart ends revoked exactly when memory or the byte was revoked or the byte was unknown |
| `Lifecycle.NoEnableAfterRevocation` | client/src/exam_telemetry_lifecycle.cpp:88-122 | once an identity is revoked no later event sequence reaches a lifecycle that accepts an enable for it |
| `Lifecycle.ReplayRebuilds` | client/src/exam_telemetry_service.cpp:653-668 | replaying a saved archive through set_context and on_explicit_stop and binding the saved context rebuilds the archive exactly, also when it is full, with enabled turned into suspended |
| `Lifecycle.ExamTelemetryLifecycle.constructor` | client/src/exam_telemetry_lifecycle.cpp:7-31 | an unknown state byte starts revoked, an unbound context never starts enabled or suspended |
| `Lifecycle.ExamTelemetryLifecycle.SetContext` | client/src/exam_telemetry_lifecycle.cpp:63-86 | over the fixed array: refuses only when the archive cannot take what it would have to, otherwise archives and rebinds |
| `Lifecycle.ExamTelemetryLifecycle.IsIdentityRevoked` | client/src/exam_telemetry_lifecycle.cpp:52-61 | true exactly for archived identities and the revoked current one |
| `Lifecycle.ExamTelemetryLifecycle.OnEnable` | client/src/exam_telemetry_lifecycle.cpp:88-122 | accepts only the bound, unrevoked context and reports the transition |
| `Lifecycle.ExamTelemetryLifecycle.OnDisconnect` | client/src/exam_telemetry_lifecycle.cpp:124-142 | suspends an enabled context only |
| `Lifecycle.ExamTelemetryLifecycle.OnExplicitStop` | client/src/exam_telemetry_lifecycle.cpp:144-158 | always ends revoked and asks for the outbox purge exactly once |
| `Lifecycle.ExamTelemetryLifecycle.OnServiceRestart` | client/src/exam_telemetry_lifecycle.cpp:160-210 | the restart transition with its in-flight clearing flag, for known and unknown bytes |
| `Outcomes.PrioritiesFollowSeverity` | client/src/exam_telemetry_service.cpp:26-49 | both recording functions keep the more severe failure, and the earlier one of two equally severe |
| `Outcomes.RecordingKeepsRanked` | client/src/exam_telemetry_service.cpp:26-49 | after any further failure both outcomes hold the first failure of the highest severity recorded so far |
| `TelemetryRuns.RevocationSurvives` | client/src/exam_telemetry_service.cpp:434-464 | in every run with a crash after any durable write, once a stop reported a confirmed witness for an identity no later enable of it succeeds and no batch of it is offered for sending |
| `TelemetryRuns.ReportedStaysSealed` | client/src/exam_telemetry_service.cpp:434-464 | at every reachable disk a reported identity is refused by the marker, the archive or the revoked saved context |
| `TelemetryRuns.RevokedIsBound` | client/src/exam_telemetry_service.cpp:950-969 | in every run a revoked context of an open coordinator is fully bound, so the service never meets a revocation that rebinding forgets |
| `TelemetryRuns.OffersAgree` | client/src/exam_telemetry_service.cpp:1075-1090 | in every run two batches offered with the same producer and sequence are identical |
| `TelemetryRuns.SequencesHaveNoGaps` | client/src/exam_telemetry_service.cpp:489-533 | at every reachable disk the sequences of each producer's durable batches are 1, 2, 3, ... without gaps |
| `TelemetryRuns.SpentNeverDurableAgain` | client/src/exam_telemetry_service.cpp:489-533 | in every run, once a batch has been offered for sending or taken out by an acknowledgement, every batch made durable after that is a different one, whatever crashes follow |
| `TelemetryRuns.ReopenNeverInconsistent` | client/src/exam_telemetry_service.cpp:778-794 | an open after any run never finds corrupt state, an unexplained outbox, an orphan or a duplicate sequence |
| `TelemetryRuns.StopSeals` | client/src/exam_telemetry_service.cpp:950-969 | a stop that reports a confirmed witness leaves its context refused by the disk and keeps every invariant |
| `TelemetryRuns.StopCanBeReported` | client/src/exam_telemetry_service.cpp:836-969 | on working storage a run of open, enable and explicit stop authorizes an identity and then reports it refused, so the premises of the run theorems are reachable |
| `TelemetryRuns.RunOk` | client/src/exam_telemetry_service.cpp:706-809 | every completed or crashed call keeps the recovery invariant, so it holds after every run |
| `TelemetryRecovery.OpensIff` | client/src/exam_telemetry_service.cpp:706-809 | on working storage an open of a closed coordinator succeeds if and only if no marker blocks it, memory holds no condemned outbox, and a saved intent, if any, has an outbox file that is not past retention and is stored there already or is young, not in doubt and has room |
| `TelemetryRecovery.OpensAfterRunIff` | client/src/exam_telemetry_service.cpp:706-809 | that condition decides the next open after every run, whatever crashed |
| `TelemetryRecovery.StrandedForever` | client/src/exam_telemetry_service.cpp:706-809 | with a saved intent and no outbox file no open ever succeeds again and no later call changes the disk, however well storage works |
| `TelemetryRecovery.StopCanStrand` | client/src/exam_telemetry_service.cpp:950-969 | such a disk is reachable: a stop whose state write and marker fail while its purge deletes the outbox file, and then a crash |
| `TelemetryContents.IngestContents` | client/src/exam_telemetry_service.cpp:1006-1063 | for every pattern of storage failures the samples an authorized ingest made durable, followed by those it left pending, are a prefix of the samples offered, in batches of 1 to 32 with consecutive sequences of the current producer and context; success makes all of them durable |
| `TelemetryContents.IngestLosesOnlyTheCounted` | client/src/exam_telemetry_service.cpp:1006-1063 | what that prefix lacks was counted as dropped, one by one |
| `TelemetryContents.IngestSucceeds` | client/src/exam_telemetry_service.cpp:975-1063 | on working storage with room an authorized ingest succeeds and every sample offered is durable |
| `TelemetryPermission.OffersNeedPermission` | client/src/exam_telemetry_service.cpp:1081-1091 | in every run a batch is offered only when an enable of its context succeeded before, with no crash, disconnect, shutdown, stop, successful open or completed close since |
| `TelemetryPermission.PermissionIsStanding` | client/src/exam_telemetry_service.cpp:836-901 | in every run a coordinator that is open and enabled owes it to such an enable of its context |
| `TelemetryPermission.OffersExactly` | client/src/exam_telemetry_service.cpp:1081-1091 | an open, enabled coordinator with nothing pending offers, on working storage, exactly the record picked among those not past retention |
| `TelemetryProgress.EnableSucceedsIff` | client/src/exam_telemetry_service.cpp:836-901 | on working storage an enable succeeds if and only if its identity is valid and not revoked and is the current context, or none is in force and producer and archive allow a new one; it is then enabled in memory and on disk |
| `TelemetryProgress.StopSucceeds` | client/src/exam_telemetry_service.cpp:950-969 | on working storage a stop of a bound context is complete: revoked on disk, nothing stored, no marker, nothing left to do |
| `TelemetryProgress.AckActsExactly` | common/src/exam_telemetry_outbox.cpp:940-1041 | an acknowledgement takes out exactly the one record with its session, producer, sequence and hash, keeps the others in order, and counts only refusals, only for its session |
| `TelemetryProgress.PruneExactly` | common/src/exam_telemetry_outbox.cpp:386-505 | exactly the records at least 30 days old are taken out, and each session's counts grow by what it lost, after lapsing by the same rule |
| `TelemetryCalls.CleanStateReloads` | client/src/exam_telemetry_service.cpp:389-432 | whenever nothing is dirty, the durable image loads back to the state in memory at any later time, enabled becoming suspended |
| `TelemetryCalls.OpenSafe` | client/src/exam_telemetry_service.cpp:706-809 | recovery from any invariant disk keeps the invariant, never finds corrupt, missing or inconsistent storage, and when it succeeds leaves nothing to publish, clean up or enqueue |
| `TelemetryCalls.EnableSafe` | client/src/exam_telemetry_service.cpp:836-901 | an enable keeps the invariant and never succeeds for a sealed identity |
| `TelemetryCalls.IngestSafe` | client/src/exam_telemetry_service.cpp:975-1063 | ingesting samples keeps every durable state recoverable, whatever write fails |
| `TelemetryCalls.ServerAckSafe` | client/src/exam_telemetry_service.cpp:1065-1079 | retiring, deleting or rescheduling an acknowledged batch keeps the invariant; an effective acknowledgement leaves nothing unpublished and its batch was durable |
| `TelemetryCalls.NextToSendSafe` | client/src/exam_telemetry_service.cpp:1081-1091 | offering keeps the invariant, and an offered batch is durable and of no sealed identity |
| `TelemetryCalls.MaintainSafe` | client/src/exam_telemetry_service.cpp:1156-1176 | maintenance, also the scrubbing behind a refusal marker, keeps the invariant |
| `TelemetrySafety.FlushSafe` | client/src/exam_telemetry_service.cpp:535-582 | a flush keeps every durable state recoverable, never rebinds or authorizes, and settles everything when it succeeds |
| `TelemetrySafety.FinishPendingSafe` | client/src/exam_telemetry_service.cpp:489-533 | finishing the pending intent keeps the invariant; success leaves nothing pending, every durable sequence below the next one and the lifecycle unchanged |
| `TelemetrySafety.RevokePendingSafe` | client/src/exam_telemetry_service.cpp:472-487 | giving up an expired or uncertain pending batch keeps the invariant, leaves nothing pending and always reports failure |
| `TelemetrySafety.PersistRevocationSafe` | client/src/exam_telemetry_service.cpp:434-464 | a revocation keeps the invariant on the protected path and on the marker fallback |
| `TelemetryReports.StopReportTrue` | client/src/exam_telemetry_stop_reporting.cpp:11-38 | a stop of an open bound coordinator is reported complete if and only if the saved state is revoked for that context, the outbox is empty, the marker is gone and nothing is left to do |
| `TelemetryReports.DisconnectReportTrue` | client/src/exam_telemetry_disconnect_reporting.cpp:16-43 | a disconnect or shutdown is reported complete, or without applicable work, if and only if nothing is left to do; then no context is enabled and the disk reloads to memory with no pending batch |
| `TelemetryReports.CloseReportTrue` | client/src/exam_telemetry_shutdown_close_reporting.cpp:35-53 | a close is reported complete if and only if it closed; then the disk reloads to memory with no pending batch |
| `TelemetryReports.MarkerGoesLast` | client/src/exam_telemetry_service.cpp:551-579 | the refusal marker disappears only when the saved state already says revoked and the outbox is empty |
| `TelemetryRanking.FlushRanked` | client/src/exam_telemetry_service.cpp:535-582 | the failure left by the recursive flush, revoke and finish routines is the first of the highest severity recorded anywhere in the call tree |
| `TelemetryRanking.ReportsRanked` | client/src/exam_telemetry_service.cpp:811-969 | the same for the reports of disconnect, shutdown, close and explicit stop |
| `TelemetryConservation.SamplesConserved` | client/src/exam_telemetry_service.cpp:975-1063 | over every run without crash, expiry, saturation, stop over a pending batch or new exam over counted losses, closing and opening as often as it likes: samples offered = enqueued + pending + dropped + not authorized, and batches enqueued + pending + dropped = the sum of the ceilings of authorized call sizes over 32 |
| `TelemetryConservation.OfferedIsAccountedFor` | client/src/exam_telemetry_service.cpp:706-1063 | the same from a pristine machine on: everything offered while open is accounted for at the end |
| `TelemetryConservation.OpenConserves` | client/src/exam_telemetry_service.cpp:706-809 | an open, whether it succeeds or not, accounts for every sample accounted for before it, unless memory and disk already disagreed on their counters |
| `TelemetryConservation.IngestConserves` | client/src/exam_telemetry_service.cpp:975-1063 | one ingest accounts for every sample and, when authorized, for one batch per started group of 32, for every pattern of storage failures |
| `TelemetryConservation.FlushConserves` | client/src/exam_telemetry_service.cpp:472-582 | a flush moves samples between pending, enqueued and dropped and loses none |
| `TelemetryConservation.StopForgetsPending` | client/src/exam_telemetry_service.cpp:950-969 | an explicit stop forgets exactly the samples still pending, which it does not count as dropped |
| `TelemetryConservation.StopConservesIff` | client/src/exam_telemetry_service.cpp:950-969 | a stop conserves samples if and only if it finds no pending samples |
| `TelemetryConservation.StopCanForget` | client/src/exam_telemetry_service.cpp:950-1063 | a reachable case: on a pristine machine, open, enable and an ingest whose intent is saved while its outbox write fails account for all samples, and the stop that follows for none |
| `Wire.LeExact` | client/src/exam_telemetry_service.cpp:97-125 | reading a little-endian number succeeds on exactly the inputs that begin with its encoding |
| `Wire.TextExact` | client/src/exam_telemetry_service.cpp:90-134 | the same for a length-prefixed string |
| `Wire.Cursor.TakeLe` | client/src/exam_telemetry_service.cpp:97-125 | the offset-advancing reader returns the number at the offset, or leaves the offset alone |
| `Wire.Buffer.AppendLe` | client/src/exam_telemetry_service.cpp:72-88 | the appending writer adds exactly the little-endian bytes |
| `StateCodec.PayloadExact` | client/src/exam_telemetry_service.cpp:594-697 | in both readable versions the parser accepts exactly the payloads of representable images and reads back version and image |
| `StateCodec.FileExact` | client/src/exam_telemetry_service.cpp:389-432 | with the digest: loading accepts exactly the sealed payloads of representable images |
| `StateCodec.EncodeState` | client/src/exam_telemetry_service.cpp:389-432 | the writer produces the sealed payload, and refuses exactly a pending batch its codec refuses |
| `StateCodec.DecodeState` | client/src/exam_telemetry_service.cpp:594-697 | the reader computes the parser's answer for every input |
| `StateReload.CleanFileReloads` | client/src/exam_telemetry_service.cpp:389-697 | whenever nothing is dirty, the bytes of the state file are within the 1 MiB read limit and load back to memory, archive and pending batch included |
| `StateReload.OldFileReloads` | client/src/exam_telemetry_service.cpp:615-697 | a version-2 file, which cannot hold a pending batch, loads with its whole archive and is recognized as old |
| `StateReload.FilesDiffer` | client/src/exam_telemetry_service.cpp:389-432 | two different saved states never share a file |
| `Coordinator.ExamTelemetryServiceCoordinator.PersistState` | client/src/exam_telemetry_service.cpp:389-432 | writes the image of all fields or changes nothing durable; clean afterwards only on success |
| `Coordinator.ExamTelemetryServiceCoordinator.LoadState` | client/src/exam_telemetry_service.cpp:594-697 | adopts the image exactly when every loader check passes |
| `Coordinator.ExamTelemetryServiceCoordinator.ReplayArchive` | client/src/exam_telemetry_service.cpp:653-664 | replays the archived identities one by one |
| `Coordinator.ExamTelemetryServiceCoordinator.CheckOutbox` | client/src/exam_telemetry_service.cpp:778-798 | true exactly when every durable batch belongs to the loaded context and no sequence repeats |
| `Coordinator.ExamTelemetryServiceCoordinator.OpenOutbox` | common/src/exam_telemetry_outbox.cpp:517-819 | scrub marker, age and read failure before the records are loaded and pruned |
| `Coordinator.ExamTelemetryServiceCoordinator.PurgeOutbox` | common/src/exam_telemetry_outbox.cpp:1107-1140 | empties the outbox, or closes it behind a scrub marker and a deletion as far as these succeed |
| `Coordinator.ExamTelemetryServiceCoordinator.PruneExpired` | common/src/exam_telemetry_outbox.cpp:1099-1105 | removes expired records and counts them, atomically |
| `Coordinator.ExamTelemetryServiceCoordinator.ApplyAck` | common/src/exam_telemetry_outbox.cpp:940-1041 | retires, deletes or reschedules exactly the record named by session, producer, sequence and hash |
| `Coordinator.ExamTelemetryServiceCoordinator.PersistRevocation` | client/src/exam_telemetry_service.cpp:434-464 | protected state first, marker fallback second, payload cleanup last |
| `Coordinator.ExamTelemetryServiceCoordinator.RevokePending` | client/src/exam_telemetry_service.cpp:472-487 | counts the pending batch as lost, revokes and persists; always fails |
| `Coordinator.ExamTelemetryServiceCoordinator.FinishPending` | client/src/exam_telemetry_service.cpp:489-533 | conflict, age uncertainty, enqueue and completion of the pending intent |
| `Coordinator.ExamTelemetryServiceCoordinator.Flush` | client/src/exam_telemetry_service.cpp:535-582 | expiry, publication, cleanup and pending completion in that order |
| `Coordinator.ExamTelemetryServiceCoordinator.Open` | client/src/exam_telemetry_service.cpp:706-809 | recovery with every refusal |
| `Coordinator.ExamTelemetryServiceCoordinator.CloseWithOutcome` | client/src/exam_telemetry_service.cpp:811-829 | close with its report |
| `Coordinator.ExamTelemetryServiceCoordinator.OnServerEnable` | client/src/exam_telemetry_service.cpp:836-901 | enable, re-enable and binding of a new context |
| `Coordinator.ExamTelemetryServiceCoordinator.OnDisconnectWithOutcome` | client/src/exam_telemetry_service.cpp:903-948 | disconnect and service shutdown with their report |
| `Coordinator.ExamTelemetryServiceCoordinator.OnExplicitStopWithOutcome` | client/src/exam_telemetry_service.cpp:950-969 | explicit stop with its report |
| `Coordinator.ExamTelemetryServiceCoordinator.IngestAll` | client/src/exam_telemetry_service.cpp:1006-1063 | the chunking loop: each batch is a durable intent before it is enqueued |
| `Coordinator.ExamTelemetryServiceCoordinator.IngestSamples` | client/src/exam_telemetry_service.cpp:975-1063 | the three ways samples are refused or taken |
| `Coordinator.ExamTelemetryServiceCoordinator.OnServerAck` | client/src/exam_telemetry_service.cpp:1065-1079 | flush, then the outbox's own acknowledgement |
| `Coordinator.ExamTelemetryServiceCoordinator.NextBatchToSend` | client/src/exam_telemetry_service.cpp:1081-1091 | maintenance and the upload permission before any batch is offered |
| `Coordinator.ExamTelemetryServiceCoordinator.Maintain` | client/src/exam_telemetry_service.cpp:1156-1176 | maintenance of an open store, scrubbing of a blocked closed one |
| `Reporting.OneNoticePerEpoch` | client/src/exam_telemetry_stop_reporting.cpp:127-175 | one failure epoch yields at most one debug line, one accepted audit and one emergency line whatever the sinks throw, and one report without mishap gets the audit through |
| `Reporting.RepeatedExactlyAfterReset` | client/src/exam_telemetry_disconnect_reporting.cpp:140-175 | the same failure is announced again exactly when a completion or another failure ended its epoch |
| `Reporting.EpochsIndependent` | client/src/exam_telemetry_shutdown_close_reporting.cpp:181-215 | availability, shutdown and close epochs never disturb one another |
| `Reporting.Suppressor.Receive` | client/src/exam_telemetry_stop_reporting.cpp:127-175 | one report against the suppression epoch |
| `Reporting.ShutdownCloseReporter.Report` | client/src/exam_telemetry_shutdown_close_reporting.cpp:157-215 | one shutdown dispatch against the three epochs |
| `Json.StringRoundTrip` | client/src/exam_host.cpp:458-506 | every valid UTF-8 text of at most 64 KiB is read back from its escaped quotation, which is consumed exactly whatever follows |
| `Json.AcceptedIsBounded` | client/src/exam_host.cpp:360-456 | every accepted message has at most 17 nested containers, at most 256 members each, distinct keys and bounded valid texts |
| `Json.EscapedIsInert` | client/src/exam_host.cpp:592-616 | escaped text holds no control character and no quote without a backslash before it |
| `Json.SurrogateEscapeRefused` | client/src/exam_host.cpp:487-500 | a surrogate escape makes the whole string unreadable, even inside a valid pair |
| `Json.EscapeReadableIff` | client/src/exam_host.cpp:487-500 | a lone escape is readable if and only if it is not a surrogate |
| `Json.LiteralReadableIff` | client/src/exam_host.cpp:458-506 | a lexically well-formed string is readable if and only if its text is at most 64 KiB, the literal as written is valid UTF-8 and no escape is a surrogate; it then stands for its decoded text |
| `Json.ReadableIsLiteral` | client/src/exam_host.cpp:458-506 | every string the reader accepts is a lexically well-formed literal that meets those conditions |
| `Json.SkippedBeyondJson` | client/src/exam_host.cpp:352-358 | the skipped bytes are JSON's white space, 11 and 12, and no others |
| `Json.LeadingSpaceIgnored` | client/src/exam_host.cpp:342-358 | a skipped byte in front changes nothing about what a message within the size limit is read as |
| `Json.VerticalTabAccepted` | client/src/exam_host.cpp:342-358 | messages starting with a vertical tab or a form feed are accepted |
| `JsonGrammar.ParsesIff` | client/src/exam_host.cpp:342-543 | a message is read as a value if and only if it is at most 128 KiB long and spells that value: a grammar of its own for white space, words, numerals, string literals, arrays and objects in order, with the limits on depth, width and text |
| `JsonGrammar.PrintRoundTrip` | client/src/exam_host.cpp:342-543 | the reader reads back what an independent printer writes of every value within the limits whose numbers are numerals, between any white space |
| `JsonGrammar.AcceptedPrints` | client/src/exam_host.cpp:342-543 | every accepted message prints to a text that is no longer and is read as the same value |
| `JsonGrammar.NumeralReads` | client/src/exam_host.cpp:508-543 | every numeral of section 6 of RFC 8259 is taken whole, whatever follows that cannot continue it |
| `JsonGrammar.NumberIsNumeral` | client/src/exam_host.cpp:508-543 | whatever the reader takes as a number is such a numeral |
| `JsonGrammar.ShortEscapes` | client/src/exam_host.cpp:474-486 | the eight short escapes stand for their characters, and every other letter but u is refused |
| `JsonGrammar.UnicodeEscapes` | client/src/exam_host.cpp:487-500 | four hexadecimal digits of either case stand for the UTF-8 character with that number |
| `Json.JsonReader.ParseValue` | client/src/exam_host.cpp:360-395 | the reader with its position computes the grammar, terminates and never reads past the end |
| `Json.JsonReader.ParseObject` | client/src/exam_host.cpp:397-431 | members, duplicates and separators |
| `Json.JsonReader.ParseArray` | client/src/exam_host.cpp:433-456 | elements and separators |
| `Json.JsonReader.ParseString` | client/src/exam_host.cpp:458-506 | characters, escapes and limits |
| `Json.JsonReader.ParseNumber` | client/src/exam_host.cpp:508-543 | the consumed number is the returned text |
| `Json.ParseJson` | client/src/exam_host.cpp:342-349 | size limit, one value and nothing after it |
| `Json.JsonEscape` | client/src/exam_host.cpp:592-616 | the escaping loop |
| `ShortcutCounter.NoStaleRecord` | client/src/exam_bridge.cpp:25-36 | in every interleaving a record takes effect only while enabled and in the generation it began in, unless the generation has wrapped around |
| `ShortcutCounter.GenerationsBalance` | client/src/exam_bridge.cpp:16-42 | in every interleaving an unsaturated generation's records are what was drained and what was left at its end |
| `ShortcutCounter.ResetWordFields` | client/src/exam_bridge.cpp:16-23 | a reset starts the next 31-bit generation with an empty count |
| `Bridge.EnablesReachTheirCommand` | client/src/exam_bridge.cpp:72-117 | in every run an enable handed to the host of command p was published after command p and before any later one |
| `Bridge.CommandsReachTheHost` | client/src/exam_bridge.cpp:128-168 | in every run commands are taken once, in publication order, from a queue of at most a stop and then a start that ends in the newest command |
| `Bridge.DrainEndsInNewest` | client/src/exam_bridge.cpp:128-168 | draining a nonempty queue ends with the command published last |
| `Bridge.PreparedEnableMatches` | client/src/exam_bridge.cpp:182-202 | however long a prepared host waits and whatever is published meanwhile, the enable it is handed for its command names its own context, unless it was published after the preparation |
| `Bridge.ResponsesUndisturbed` | client/src/exam_bridge.cpp:48-86 | in every run the responses are those of the run without any enable or command |
| `Bridge.SlotsUndisturbed` | client/src/exam_bridge.cpp:48-86 | in every run enables and commands are those of the run without any response |
| `Bridge.EnableIsHandedOver` | client/src/exam_bridge.cpp:72-117 | a well-formed enable published for the latest command is handed to the host of that command, through every preparation that it matches and whatever else leaves it alone |
| `Bridge.NewestResponsesKept` | client/src/exam_bridge.cpp:48-70 | the queue of responses keeps the newest 64 in order, and the oldest of them is taken first |
| `Bridge.ExamBridge.PublishExamCommand` | client/src/exam_bridge.cpp:128-156 | a stop clears the queue, a start only queued starts; both invalidate the enable |
| `Bridge.ExamBridge.PublishTelemetryEnable` | client/src/exam_bridge.cpp:72-86 | the enable takes the number of the latest command |
| `Bridge.ExamBridge.TryPopTelemetryEnable` | client/src/exam_bridge.cpp:100-117 | older enables are dropped, newer ones wait |
| `Bridge.ExamBridge.PrepareForStart` | client/src/exam_bridge.cpp:182-202 | responses cleared, stale or foreign enables dropped |
| `BrowserClock.EpochsWellFormed` | client/src/exam_host.cpp:3382-3516 | between two clock resets the accepted samples start with the only startup sample at the published anchor, with a 32-bit uncertainty, and never go back; the anchor is published at most four times a second apart |
| `BrowserClock.AtMost512PerSecond` | client/src/exam_host.cpp:3464-3480 | on a steady clock any 513 consecutive accepted samples since the start span more than a second |
| `BrowserClock.UncertaintyIsDelay` | client/src/exam_host.cpp:3496-3511 | in every run the first message accepted behind a published anchor is passed on with an uncertainty of receipt minus publication in whole milliseconds, plus 2, and otherwise unchanged |
| `BrowserClock.LaterPassUnchanged` | client/src/exam_host.cpp:3450-3516 | every later accepted message is passed on as it came |
| `BrowserClock.ForwardAcceptsIff` | client/src/exam_host.cpp:3450-3516 | a message is passed on if and only if the browser is enabled and anchored, the native clock runs, the rate window has room, the samples are in order, and the first one starts at the anchor within 32 bits of uncertainty |
| `BrowserClock.ExamHostTelemetryState.Elapsed` | client/src/exam_host.cpp:3390-3407 | milliseconds since the origin, or a reset |
| `BrowserClock.ExamHostTelemetryState.PostBrowserEnable` | client/src/exam_host.cpp:3409-3428 | only a successful publication anchors |
| `BrowserClock.ExamHostTelemetryState.MaintainBrowserStartup` | client/src/exam_host.cpp:3430-3448 | at most three throttled retries |
| `BrowserClock.ExamHostTelemetryState.ForwardBrowserSamples` | client/src/exam_host.cpp:3450-3516 | rate window, binding, order and uncertainty |
| `AnswerEvents.ContextKeyIdentifies` | client/service/main.cpp:285-306 | two events have the same context key if and only if they have the same exam context |
| `AnswerEvents.AckMatchesExactly` | client/service/main.cpp:308-353 | an acknowledgement matches a key if and only if it names the event's session, sequence and hash |
| `AnswerEvents.EventKeyIdentifies` | client/service/main.cpp:253-283 | one key stands for one session, sequence and hash within one context |
| `AnswerDelivery.OneInFlightPerContext` | client/service/main.cpp:698-763 | in every run, with clears from other threads at any point, two events in flight never share a context, and each has a release time at most 30 seconds ahead |
| `AnswerDelivery.QuietSpellDelivers` | client/service/main.cpp:698-763 | after 30 quiet seconds the first pending event is sent |
| `AnswerDelivery.PopIsRun` | client/service/main.cpp:711-763 | a whole pop is a run of reservations and encodings that sends at most the event it returns |
| `AnswerDelivery.ForwardsNeverExceedSends` | client/service/main.cpp:2079-2178 | in every run, for each session, sequence and hash, acknowledgements forwarded never exceed events sent |
| `AnswerDelivery.ForwardsFollowSends` | client/service/main.cpp:2079-2178 | in every run an acknowledgement that reaches the exam page answers an event sent before |
| `AnswerDelivery.ForwardedIsExact` | client/service/main.cpp:2079-2178 | a forwarded acknowledgement names an event in flight, and after a durable one the outbox holds nothing it names |
| `AnswerDelivery.ForwardedIff` | client/service/main.cpp:2079-2178 | an acknowledgement reaches the exam page if and only if it names an event in flight and, when it is durable, the outbox has retired what it names |
| `AnswerDelivery.MatchedDelays` | client/service/main.cpp:2098-2129 | a matched event leaves flight; it is free when retired, else stays back 2 seconds for a gap or an unavailable server and 30 seconds otherwise; nothing else changes |
| `AnswerDelivery.UnmatchedDelays` | client/service/main.cpp:2130-2152 | a unique match of session and sequence under another hash only moves that event's release time |
| `AnswerDelivery.ReservationDelays` | client/service/main.cpp:714-753 | a reserved event is in flight and stays back five seconds |
| `AnswerDelivery.EarlierRetiredUnacknowledged` | client/service/main.cpp:711-763 | a run in which an answer, refused as unavailable, is overtaken by the next one, whose acknowledgement retires both |
| `AnswerDelivery.OvertakesIff` | client/service/main.cpp:711-763 | of two pending answers of a context the second is sent past the first if and only if nothing undue of the context is in flight, the first is delayed or cannot be encoded, and the second is free and can be |
| `AnswerDelivery.AnswerScheduler.PopOutbound` | client/service/main.cpp:711-763 | the first pending event whose context and delay allow it and that can be encoded |
| `AnswerDelivery.AnswerScheduler.ReserveEvent` | client/service/main.cpp:714-753 | the part of an offer under the lock: skip, or reserve with a 5 second delay |
| `AnswerDelivery.AnswerScheduler.ReleaseContext` | client/service/main.cpp:722-740 | gives up waiting for a due event, or blocks the context |
| `AnswerDelivery.AnswerScheduler.OnAck` | client/service/main.cpp:2079-2178 | matching, retry delays, boundary hints and the decision to forward |
| `AnswerOutbox.RunKeeps` | common/src/answer_journal.cpp:1856-2243 | over every run of storing, rebasing and acknowledging with every pattern of failing writes, what is stored of a session is a gapless hash chain between the acknowledged event and the newest one, and only the newest can be final |
| `AnswerOutbox.ReopenAccepts` | common/src/answer_journal.cpp:1575-1822 | whatever was stored, rebased and acknowledged before, the file passes every check of the loader |
| `AnswerOutbox.AnswersNeverLost` | common/src/answer_journal.cpp:1856-2243 | over every run a stored answer stays stored with the same body until its session is acknowledged up to it |
| `AnswerOutbox.AcceptedIsStored` | common/src/answer_journal.cpp:1856-2042 | an answer the outbox accepts is stored, or was already acknowledged under the same hash |
| `AnswerOutbox.RetiredForGood` | common/src/answer_journal.cpp:1856-2243 | no event up to an acknowledged sequence is ever stored again in its session |
| `AnswerOutbox.AckRetiresExactly` | common/src/answer_journal.cpp:2089-2243 | a failed acknowledgement changes nothing; a successful one was verified by hash in exactly one session and removes exactly that session's events up to its sequence |
| `AnswerOutbox.NamedIsGone` | common/src/answer_journal.cpp:2089-2243 | after a successful acknowledgement no stored event has its session, sequence and hash |
| `AnswerOutbox.RetiresOneIff` | common/src/answer_journal.cpp:2207-2243 | an acknowledgement retires nothing but the event at its own sequence if and only if no earlier event of the session is still stored |
| `AnswerOutbox.RebaseKeeps` | common/src/answer_journal.cpp:1882-1977 | a rebase keeps every body, keeps other sessions, and leaves the session one hash chain |
| `AnswerAcceptance.EnqueueAcceptsIff` | common/src/answer_journal.cpp:1856-2042 | an answer is accepted if and only if it is valid and hashable and is stored or newest already, or the file can be written and it extends its session within the quotas or rejoins it: same body as a stored answer of an unfinalized session, any nonzero predecessor for the first one beyond sequence 1, else the hash of the stored predecessor, with every later answer hashable again |
| `AnswerAcceptance.EnqueueStores` | common/src/answer_journal.cpp:1856-2042 | what the session then holds: itself, itself and the answer, or its prefix and the relinked rest; no other session changes |
| `AnswerAcceptance.AckAcceptsIff` | common/src/answer_journal.cpp:2089-2243 | an acknowledgement succeeds if and only if it names exactly one session by a stored event or by the boundary already reached, and what it retires can be written under a nonzero hash |
| `AnswerOutbox.DurableOutbox.Enqueue` | common/src/answer_journal.cpp:1856-2042 | retry, rebase, extension or refusal, and one file write |
| `AnswerOutbox.DurableOutbox.RechainAfter` | common/src/answer_journal.cpp:1943-1965 | rewrites predecessor hashes up to the first gap |
| `AnswerOutbox.DurableOutbox.Sessions` | common/src/answer_journal.cpp:2107-2132 | the sessions an acknowledgement could mean and those it names exactly |
| `AnswerOutbox.DurableOutbox.Acknowledge` | common/src/answer_journal.cpp:2089-2243 | selection of the session, verification, removal and one file write |
| `ReplayProtection.NoReplay` | common/src/auth.cpp:427-466 | with a non-decreasing clock an identical hello is accepted twice only after at least capacity others were accepted in between |
| `ReplayProtection.SameKeyAcceptedAgain` | common/src/auth.cpp:427-466 | a client and nonce are accepted again only after capacity others or after the first entry's expiry |
| `ReplayProtection.NewHelloAccepted` | common/src/auth.cpp:427-466 | in every run a hello whose client and nonce were not accepted before is accepted if and only if it is well formed and within the clock skew |
| `ReplayProtection.AdmitsIff` | common/src/auth.cpp:427-466 | a hello is accepted if and only if it is well formed, within the skew, and no entry of its client and nonce is still in force |
| `ReplayProtection.KeyIdentifies` | common/src/auth.cpp:55-62 | the key identifies client and nonce |
| `ReplayProtection.AdmitKeepsQueue` | common/src/auth.cpp:427-466 | no key twice and never more than capacity entries |
| `ReplayProtection.ReplayProtector.Accept` | common/src/auth.cpp:427-466 | the queue and the key set stay equal while one hello is judged |
| `Sanitizer.SanitizedIsPrintable` | common/src/telemetry.cpp:241-305 | whatever the text, the output keeps its bound and holds no control character, so no tab and no line break |
| `Sanitizer.SecondPassIsIdle` | common/src/audit.cpp:120-137 | the second pass of the audit field sanitizer never finds anything to do |
| `Sanitizer.ProseIsKept` | common/src/telemetry.cpp:241-305 | words of letters that are no secret's name and shorter than 40, with single spaces between them, are left alone when they fit |
| `Sanitizer.SanitizingTwiceDiffers` | common/src/telemetry.cpp:241-305 | a text whose sanitized form is redacted further when sanitized again |
| `Sanitizer.NamedExactly` | common/src/telemetry.cpp:49-80 | the key comparison finds the 14 listed names in either case with hyphens and underscores anywhere, and nothing else |
| `Secrets.AssignmentHides` | common/src/telemetry.cpp:49-64 | behind any prose the name of a secret, a separator and the whole rest of the text come out as the redaction mark alone |
| `Secrets.NameHides` | common/src/telemetry.cpp:66-80 | the name of a secret alone hides itself and all that follows |
| `Secrets.DrivePathHides` | common/src/telemetry.cpp:82-95 | a path with a drive letter anywhere in a token hides the token and all that follows |
| `Secrets.SharedPathHides` | common/src/telemetry.cpp:82-95 | so does a path that starts with two slashes |
| `Secrets.TokenHides` | common/src/telemetry.cpp:97-195 | of a mail address, a numeric or hardware address or a long encoded token only the redaction mark comes out |
| `Secrets.TokensAlike` | common/src/telemetry.cpp:241-303 | two hidden tokens give the same output, unless one of them hides what follows and the other does not |
| `Secrets.OtherTokenKept` | common/src/telemetry.cpp:241-303 | a token of none of the shapes is copied, control characters as question marks |
| `Secrets.TailExact` | common/src/telemetry.cpp:49-95 | the rest of the text is dropped exactly for assignments, names and paths, described by the shape of the text |
| `Secrets.TokenExact` | common/src/telemetry.cpp:97-195 | a token is replaced exactly for mail, numeric and hardware addresses and encoded tokens, described by their shape |
| `Secrets.ClientNumberHides` | common/src/telemetry.cpp:197-221 | the output does not depend on the number of a client |
| `Secrets.ClientAddressLeaks` | common/src/telemetry.cpp:197-303 | the failing case: an address behind the word client loses its first octet only |
| `Secrets.AddressHiddenIff` | common/src/telemetry.cpp:197-303 | an address behind prose is hidden if and only if the word before it is not client |
| `Sanitizer.SanitizePublicText` | common/src/telemetry.cpp:241-305 | the scanning loop: client identifiers, white space, redacted and copied tokens, and the ellipsis |
| `Sanitizer.AppendVisible` | common/src/telemetry.cpp:286-297 | copies a token until the output is full, control characters as question marks |
| `Audit.SpoolConserves` | common/src/audit.cpp:272-303 | in every run emitted = dropped + removed by acknowledgement + spooled, and spooled sequences are contiguous and newest |
| `Audit.SpoolHoldsEmissions` | common/src/audit.cpp:272-303 | in every run each spooled record is the emission that its sequence counts, with its time and its sanitized event |
| `Audit.EmitCostsOldestOnly` | common/src/audit.cpp:272-284 | an emission costs no record unless the spool is full, and then only the oldest |
| `Audit.AcknowledgeRemovesExactly` | common/src/audit.cpp:297-303 | an acknowledgement removes exactly the sequences up to its own |
| `Audit.ChunkRoundTrip` | common/src/audit.cpp:174-248 | decoding an encoded chunk gives the longest fitting prefix of the records, sanitized by the encoder and again by the decoder; they come back as they were if and only if sanitizing twice leaves each alone |
| `Audit.FittingIsLongest` | common/src/audit.cpp:174-204 | a prefix fits a chunk if and only if it is no longer than what the encoder takes |
| `Audit.PublicPeekFitsIff` | common/src/audit.cpp:286-295 | with the service's own sanitizer a peek fits one chunk in every run if and only if it asks for at most 48 records or the spool holds at most 48 |
| `Audit.PeekFitsIff` | common/src/audit.cpp:286-295 | the same for every bounded sanitizer that can return full fields twice |
| `Audit.ShortPeekFits` | common/src/audit.cpp:286-295 | within that limit every peeked record is encoded, for every bounded sanitizer and every run |
| `Audit.DefaultPeekOverflows` | common/src/audit.cpp:286-295 | a spool and a peek of default size that do not fit: 49 emitted events of harmless prose, which the service's sanitizer leaves alone |
| `Audit.PublicSanitizes` | common/src/audit.cpp:120-144 | the service's event sanitizer only rewrites the texts and keeps their bounds |
| `Audit.RateBound` | common/src/audit.cpp:444-468 | however uploads interleave, a stretch of T milliseconds admits at most 3 + T/5000 of one client's |
| `Audit.RateBoundIff` | common/src/audit.cpp:444-468 | the bound holds of every stretch of uploads starting at a time if and only if that time is at least 1 |
| `Audit.NewClientAllowedThree` | common/src/audit.cpp:444-468 | a client not seen before may upload three times at once and no more |
| `Audit.AllowedAfterFiveSeconds` | common/src/audit.cpp:444-468 | five seconds without an upload always allow the next one |
| `Audit.ZeroClockIsUnlimited` | common/src/audit.cpp:444-468 | at clock value 0 every upload is admitted |
| `Audit.EncodeAuditChunk` | common/src/audit.cpp:174-204 | the encoding loop |
| `Audit.AuditSpool.Emit` | common/src/audit.cpp:272-284 | drops the oldest records to make room and stamps the next sequence |
| `Audit.AuditSpool.Acknowledge` | common/src/audit.cpp:297-303 | the acknowledgement loop |
| `Audit.UploadRateLimiter.Allow` | common/src/audit.cpp:444-468 | refill and spend of one bucket |
| `Fleet.DecodeExact` | common/src/control_messages.cpp:331-385 | decoding accepts exactly the encodings of honest reports, so a verified phase only comes with a proving probe |
| `Fleet.RoundTripIffHonest` | common/src/control_messages.cpp:299-385 | an encodable report decodes to itself if and only if it claims no more than its own probe |
| `Fleet.DishonestReportsEncode` | common/src/control_messages.cpp:299-385 | two reports the encoder accepts and the decoder refuses |
| `Fleet.BuiltReportsSurvive` | client/service/main.cpp:1364-1434 | every status built from a wired or an empty probe encodes and decodes to itself, verified only with proof, and carries what a successful probe observed unchanged |
| `Fleet.ObservationBits` | common/src/control_messages.cpp:299-328 | where the encoded report carries its phase, and which bit stands for which observation |
| `Fleet.DetailIsEncodable` | client/service/main.cpp:1386-1404 | any text becomes a detail the codec accepts |
| `Fleet.FleetReporter.QueueFleetStatus` | client/service/main.cpp:1406-1434 | never drops a report and downgrades an unproved verification |

## Left out

- Locks, exceptions and last-error texts of the coordinator: each public call is one atomic call; allocation failure is not modelled.
- The outbox object: modelled on values inside the coordinator, without its own class; retry deadlines, in-flight marks and the resulting choice of the next record are a parameter (`pick`), so fairness of sending is not modelled.
- The outbox file format, quarantine of corrupt files, the 64-slot cap on loss contexts, clamping of future arrival times and the expiry barrier file: an outbox that can be read is read as it was written, and its clock is the coordinator's.
- Migration of older outbox files, and cleanup of temporary files. An old state file is read by StateCodec; in the coordinator every saved state is of the current version, so the rewrite that an old one triggers is not modelled.
- Runs in which a pending batch passes the retention bound are covered by the safety theorems; conservation is stated for runs without crash and counter expiry.
- TelemetryRecovery.OpensIff: for a closed coordinator, as after a crash or a restart; an open of an open one closes it first, whose success is that of a flush.
- Sanitizer: the C locale; classification of a token is a function, the loops over the text and over a token are methods.
- DPAPI protection, SHA-256 and random generation: protection is the identity, hashes are arbitrary functions, a producer candidate is a parameter. Hash collisions between different batches are not excluded, and no theorem needs them excluded.
- The telemetry batch codec: a parameter that refuses or encodes within 32 KiB and decodes exactly its encodings.
- Coordinator.ExamTelemetryServiceCoordinator: holds the lifecycle as a value; the lifecycle's own class is proved against the same functions in Lifecycle.
- The retry loop around random generation is one optional candidate.
- ShortcutCounter: a state machine over single atomic steps of any number of threads rather than a class, with sequentially consistent memory; one thread resets, as in the host.
- Reporting: texts, tokens and sanitizing of notices; sinks are booleans that accept or throw.
- Coordinator.ExamTelemetryServiceCoordinator.LoadState: without the dirty mark left by an old version.
- Coordinator.ExamTelemetryServiceCoordinator.OpenOutbox: without quarantine, the expiry barrier and the clamping of arrival times.
- Coordinator.ExamTelemetryServiceCoordinator.PurgeOutbox: without losses that expiry discovers during the purge.
- Coordinator.ExamTelemetryServiceCoordinator.PruneExpired: without the expiry barrier and its retry.
- Coordinator.ExamTelemetryServiceCoordinator.ApplyAck: without retry deadlines and the cap on loss slots.
- Coordinator.ExamTelemetryServiceCoordinator.Open: without cleanup of temporary files and errors of the existence checks.
- Coordinator.ExamTelemetryServiceCoordinator.NextBatchToSend: the choice of record is a parameter; retry deadlines and in-flight marks are not modelled.
- Coordinator.ExamTelemetryServiceCoordinator.Maintain: without failures of the temporary-file cleanup.
- AnswerOutbox: events of one session are stored in sequence order (part of AnswerOutbox.RunKeeps), so the sorting before a rebase is the identity and left out; files of versions 1 to 3, encryption and the writer's lease are not modelled; the size quota and every other reason not to write are one boolean per write; of the event validation only the fields of the model are checked.
- AnswerDelivery: storing an event, reserving it, encoding it, handling an acknowledgement and clearing are atomic steps; the outbox half of an acknowledgement and the scheduling half are one step, since they touch different state.
- Json: member lookup keeps members in order of appearance instead of a sorted map; conversion to UTF-16 is only its validity check.
- BrowserClock: parsing of browser samples is a parameter of at least one sample; the shortcut counter inside the state is modelled separately in ShortcutCounter; the second, identical range check of the elapsed time is merged with the first.
- Audit.RateBound: tokens are exact rationals, where the code uses binary floating point.
- Audit.UploadRateLimiter.Allow: the same.
- Audit: sequences and counters are unbounded, where the code counts in 64 bits; the rotating sink and the line format are not modelled; spool and codec are proved for every bounded sanitizer.
- Fleet.FleetReporter.QueueFleetStatus: without the outbound queue's own limit and coalescing.
- Fleet: the probe cache and the worker threads.
- ReplayProtection: `clear` is modelled but not part of the runs of NoReplay, since it forgets on purpose.
- Windows services, pipes, windows, the lockdown controller, pairing and the other fixed-layout codecs: input and output, or the same technique as the fleet report.
