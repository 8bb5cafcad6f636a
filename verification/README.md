# An IoT platform's command and telemetry core, verified

The platform accepts telemetry from devices over MQTT, carries it through Kafka and PostgreSQL into TDengine, and sends
commands back to devices with at-least-once delivery and acknowledgements. This project models the parts in which
correctness is decided by more than one function or more than one process, and proves what those parts promise over
every input, every run and every reachable state. `dafny verify dfyconfig.toml` checks all of it.

## What is proved

**Commands** (`CommandStatus`, `CommandStore`, `CommandProtocol`, `CommandSafety`, `CommandConvergence`,
`CommandSweeps`, `CommandActors`). The command tables are a class whose methods are the guarded SQL statements. The
protocol is a transition system whose actions are those statements, taken by any number of dispatchers, workers, devices
and periodic scans in any interleaving, with replies that may be lost after the statement took effect. One invariant
holds in every reachable state (`CommandProtocol.InvAlways`). From it follow lease fencing, at most one unexpired claim
per command, an audit log that determines the status, a result that is written at most once, no re-delivery after a
command settled, one command per idempotency key, and convergence: a row changes at most 32 times, ceil(n / limit)
oldest-first scans reach each of n due commands, and after 34 rounds of the four scans every command that was there has
ended. The dispatcher's loop, the worker's handling of a command event and the acknowledgement handler are methods on
the same class, each proved to be a run of the transition system. What each turn, event and batch statement does is
stated once more on rows and histories alone, independently of the functions that define the steps.

**Telemetry** (`TelemetryStore`, `DeviceLiveness`, `TelemetryPipeline`, `TelemetryConservation`, `TelemetryActors`,
`Compensation`). Every external call may fail without effect, or take effect and still report failure. In every run a
message the bridge acknowledged stays findable forever: as a dead letter, as a row that is pending or accepted by
TDengine, or as a Kafka event that is uncommitted, filtered or dead-lettered. The completion mark never lies, the
compensation sweep is itself a run of the pipeline, never starves a row behind rejected ones and comes back to rows
behind its cursor, and in every reachable state a device's last-seen time is the latest receive time among its stored
records. What one message and one event leave in every store is stated for every combination of faults.

**Paging** (`Fields`, `PageCursor`, `Pagination`, `PageTraversal`). The keyset query with one extra row and a byte
budget returns exactly the page that sorting and scanning everything returns, in both directions and under any
collation; following cursors, in memory or through the query, lists every row asked for once, in time order, or stops
exactly at the first row that alone exceeds the budget.

**JSON admission** (`JsonNumber`, `JsonbBudget`, `JsonText`, `JsonGrammar`, `SurrogateScan`, `JsonbText`,
`UniqueJson`, `CaseFolding`). A text is read as a document if and only if it spells that document by the grammar of
RFC 8259. Every document is charged exactly the length of its tokens with separators, which bounds the text PostgreSQL
will print. What it prints reads back as the stored document and passes the whole check again, on the text. Every text
that parses is lexically what the in-place escape scan relies on; the scan never leaves its buffer and accepts exactly
well-paired UTF-16. The duplicate-key check accepts exactly the streams that are one value, at most 128 deep, without
repeated keys, root keys compared up to case-folding orbits when asked.

**Satellites** (`TopicCodec`, `DlqReplay`, `TraceRotation`). Topic and username codecs are inverse; dead-letter replay
hides no record of a stage from a group that replays that stage; trace rotation keeps order and, with a backup, budget.

## Properties that hold only under a condition

- A page cursor is accepted if and only if its key fits it (`PageCursor.IssuedCursorAccepted`). Commands of the
  in-memory store carry nanosecond times, so their cursors are refused (`PageCursor.NanosecondCursorRefused`).
- The keyset query agrees with the simple page unless a command cursor holds the zero time, which the query treats as no
  cursor. For such a cursor it agrees if and only if every listed row follows the cursor anyway, or both forms start
  with a row that fits no page (`PageTraversal.FastAgreesExactly`). Such a cursor can be written by a client; newest
  first, over any non-empty listing of commands with ordinary times, the query then starts over at the first page where
  the simple form ends (`PageTraversal.ZeroTimeCursorLoops`).
- Replay is safe for a stage if every real run in the group takes that stage or all stages
  (`DlqReplay.ReplayHidesNothing`); any other stage can hide a record (`DlqReplay.OtherStageHides`). The default groups
  of two stages collide only for "no stage" and a stage named `all` (`DlqReplay.GroupsDistinct`), so every history of
  default-group runs is safe for a job if and only if the job names a stage (`DlqReplay.DefaultGroupsSafeIff`).
- Trace files stay within the budget if and only if there is a backup to rotate into, or the budget is zero
  (`TraceRotation.BudgetHoldsIff`). The comment on the writer promises the bound without that condition.

## Modelling choices

- Clocks, networks, databases and file systems are parameters. A fault is one of: fine, not applied, applied but
  unreported. A SQL statement or transaction is one atomic step. Commands and device ids are mathematical strings.
- A run is a finite sequence of states in which each step is enabled. Only the claims about unexpired leases need a
  clock that does not run backwards (`CommandSafety.Clocked`); everything else holds for arbitrary clock readings.
- Batch statements take the oldest due rows that are not locked by another session; the locked set is a parameter.
- JSON text is a sequence of Unicode scalar values, so bytes that are not UTF-8 do not occur; PostgreSQL's jsonb output
  is a printer over document trees. Key order inside an object and the collation of ids are arbitrary parameters.
- Unicode case folding is any permutation of the code points with finite orbits, as `unicode.SimpleFold` promises.
- The bridge always has a Kafka writer and the worker a store, as the start-up code arranges. A missing dead-letter
  writer is a dead-letter write that is not applied.
- The dead-letter topic is one log; partitions are independent of each other.
- Lock acquisition inside one process is not shown: each method runs under the lock its source holds.

## Model

| member | source | states |
|---|---|---|
| `CommandStatus.HistoryShape` | internal/contracts/command_state.go:32-66 | a replayable event history creates once, first, and a terminal event can only be its last |
| `CommandStatus.PublicationsAlternate` | internal/contracts/command_state.go:32-66 | publications and requeues alternate, starting with a publication, and their difference is the status |
| `CommandStore.PostgresStore.CreateCommandWithKey` | internal/platform/postgres_store.go:669-740 | unknown device, fresh insert of exactly the request with its event, reuse of an equal keyed request, or conflict; no write in the last two and the first |
| `CommandStore.PostgresStore.AckCommandResult` | internal/platform/postgres_store.go:750-838 | reply and new tables (row, event and acknowledgement row together) for every state of the command |
| `CommandStore.PostgresStore.MarkCommandPublished` | internal/platform/postgres_store.go:871-877 | publishes with its event only the claimed attempt of a created row with a running lease |
| `CommandStore.PostgresStore.MarkCommandSent` | internal/platform/postgres_store.go:889-895 | marks created or published rows sent with a deadline and an event, nothing else |
| `CommandStore.PostgresStore.RescheduleCommand` | internal/platform/postgres_store.go:901-907 | moves the next dispatch of the claimed attempt only, without an event |
| `CommandStore.PostgresStore.RequeueCommand` | internal/platform/postgres_store.go:923-931 | returns a published row to created with its event, nothing else |
| `CommandStore.PostgresStore.SelectDue` | internal/platform/postgres_store.go:844-861 | the oldest due unlocked rows in order, at most the limit, nothing older passed over |
| `CommandStore.PostgresStore.UpdateBatch` | internal/platform/postgres_store.go:983-998 | rows and audit events of exactly the selected rows change, in order |
| `CommandStore.PostgresStore.ClaimCommandsForDispatch` | internal/platform/postgres_store.go:844-861 | takes the oldest created rows whose wait is over and that have attempts left; each gets one more attempt and a lease, nothing else changes |
| `CommandStore.PostgresStore.ExpireCommands` | internal/platform/postgres_store.go:942-952 | takes the oldest sent rows past their deadline, or past the grace where they have none; each times out with one event, nothing else changes |
| `CommandStore.PostgresStore.RecoverStaleCommands` | internal/platform/postgres_store.go:968-979 | stale published rows with attempts left are due again at once, with an event; then, in the resulting tables, exhausted rows fail |
| `CommandStore.BatchMeaning` | internal/platform/postgres_store.go:983-998 | a batch statement takes exactly the oldest unlocked rows that meet its condition and changes and logs each of them alike |
| `CommandProtocol.StatementLegal` | internal/platform/postgres_store.go:669-998 | every enabled write is a legal status step with the matching event and acknowledgement row |
| `CommandProtocol.LegalKeepsRecorded` | internal/platform/postgres_store.go:750-998 | a legal write keeps history, acknowledgement rows, result, deadline and attempt cap consistent |
| `CommandProtocol.StatementMovesTokens` | internal/platform/postgres_store.go:844-907 | a write is a claim that hands out a token, a completion that uses one up, or leaves the tokens alone |
| `CommandProtocol.TokensKept` | internal/platform/postgres_store.go:844-907 | fencing of all outstanding claims survives every such write |
| `CommandProtocol.RowsKept` | internal/platform/postgres_store.go:669-998 | any step keeps the invariant of any command |
| `CommandProtocol.KeysKept` | internal/platform/postgres_store.go:669-740 | no step creates a second command for a tenant's key |
| `CommandProtocol.SettledStays` | internal/platform/worker.go:653-659 | sent, acked, failed and timeout are closed under every store operation |
| `CommandProtocol.InvKept` | internal/platform/postgres_store.go:669-998 | every enabled action of every process keeps the whole invariant |
| `CommandProtocol.InvAlways` | internal/platform/postgres_store.go:669-998 | the invariant holds in every state of every run from the empty store |
| `CommandSafety.CompletionEffect` | internal/platform/postgres_store.go:871-907 | in every reachable state a claim holder's completion writes if and only if its attempt is current, the row is created and its own lease runs |
| `CommandSafety.OneEffectiveClaim` | internal/platform/postgres_store.go:844-907 | at most one outstanding claim of a command can still take effect |
| `CommandSafety.LeasesSpentAlways` | internal/platform/postgres_store.go:844-861 | a superseded claim's lease is over in every clocked run |
| `CommandSafety.OneUnexpiredClaim` | internal/platform/command_dispatcher.go:96-124 | at most one unexpired claim per command is outstanding, over any number of dispatchers |
| `CommandSafety.SweepsWaitForLeases` | internal/platform/postgres_store.go:968-979 | no scan claims, requeues or fails a command while an unexpired claim on it is outstanding |
| `CommandSafety.AuditLogDeterminesStatus` | internal/platform/postgres_store.go:983-998 | folding the events yields the status; one terminal event at most, last; requeued <= published <= requeued + 1 and published <= attempts <= 10 |
| `CommandSafety.AckRowsMatchResults` | internal/platform/postgres_store.go:750-838 | one acknowledgement row if and only if a result is set, with that result and its status |
| `CommandSafety.TerminalFrozen` | internal/platform/postgres_store.go:750-838 | row, history and acknowledgements of a terminal command never change again |
| `CommandSafety.ResultWrittenOnce` | internal/platform/postgres_store.go:750-838 | a result is written at most once and stays, whatever is delivered again |
| `CommandSafety.AckReplies` | internal/platform/postgres_store.go:750-838 | the same in every reachable state: equal repeats succeed silently, different ones conflict without effect, late ones change nothing |
| `CommandSafety.SettledForever` | internal/platform/worker.go:653-659 | a settled command stays settled in every later state |
| `CommandSafety.NoLookupAfterSettled` | internal/platform/worker.go:720-749 | every delivery lookup after a command settled refuses to publish |
| `CommandSafety.CommittedOffsetIsSettled` | internal/platform/worker.go:547-563 | an offset committed on the success path belongs to a settled command |
| `CommandSafety.NoRedeliveryAfterSettled` | internal/platform/worker.go:450-465 | after settling, a command is published at most by workers that already held it |
| `CommandSafety.OneCommandPerKey` | internal/platform/postgres_store.go:669-740 | retrying a keyed request never makes a second command |
| `CommandConvergence.WriteShrinks` | internal/platform/postgres_store.go:844-979 | every effective write lowers the measure 3·(10−attempts)+2+phase |
| `CommandConvergence.MeasureStep` | internal/platform/postgres_store.go:844-979 | no step raises a command's measure and every row change lowers it |
| `CommandConvergence.ChangesSpendMeasure` | internal/platform/postgres_store.go:844-979 | the number of row changes between two states is paid for by the measure |
| `CommandConvergence.BoundedChange` | internal/platform/command_dispatcher.go:11 | after insertion a row changes at most 32 times in any run |
| `CommandConvergence.DueExactlyFromWake` | internal/platform/postgres_store.go:850-979 | every reachable non-terminal row is due for its scan exactly from its wake time on, and for no scan before |
| `CommandConvergence.ServicedCommandsTerminate` | internal/platform/command_dispatcher.go:77-94 | any run with at least 34 rounds of scans over a command ends with it acked, failed or timed out |
| `CommandSweeps.SweepsReachAll` | internal/platform/postgres_store.go:844-998 | with n due rows and no arrivals, ceil(n / limit) oldest-first scans select every one |
| `CommandSweeps.RoundServicesAll` | internal/platform/command_dispatcher.go:77-124 | the run of those scans, claims included, is a round in the sense of the previous theorem for each due command |
| `CommandSweeps.RoundsEndAll` | internal/platform/command_dispatcher.go:77-124 | in any run with 34 rounds of all four scans, each with enough batches for the commands there are and past their wake times, every command present at the start ends acked, failed or timed out |
| `CommandActors.BackoffBounds` | internal/platform/worker_storage.go:12-14 | the retry backoff is monotone and within 1 to 64 seconds for every counter, negative ones too |
| `CommandActors.BackoffDoubles` | internal/platform/worker_storage.go:12-14 | one second up to the first attempt, doubled for each further one up to the sixth, constant after |
| `CommandActors.BatchIsRun` | internal/platform/postgres_store.go:983-998 | a batch scan is a run of single-row scans |
| `CommandActors.ClaimOne` | internal/platform/command_dispatcher.go:96-124 | claims the oldest due command and holds its token, or nothing is due, or the claim was lost |
| `CommandActors.CompleteClaim` | internal/platform/command_dispatcher.go:106-123 | a claim that stands becomes published with its event if Kafka took the command, otherwise waits out the backoff of its attempt with its history unchanged; a lost claim or call changes nothing |
| `CommandActors.DispatchedEffect` | internal/platform/command_dispatcher.go:96-124 | every dispatching step of the protocol has the effect of a turn, on the tables alone |
| `CommandActors.DispatchPending` | internal/platform/command_dispatcher.go:96-124 | each turn takes the oldest claimable command and leaves exactly that row published, rescheduled or under lease; the loop stops early only if nothing is due or a claim failed; no claim is left behind; a run of the protocol |
| `CommandActors.ConsumeCommand` | internal/platform/worker.go:394-564 | for every combination of faults, whether the command is published, what becomes of its row and history, and how the event ends; a confirmed downlink sets the deadline to its own time plus the timeout; a run of the protocol |
| `CommandActors.EventMeans` | internal/platform/worker.go:394-564 | what an event does to rows and histories: sent with its deadline, back to created with its backoff, or nothing |
| `CommandActors.EventEnds` | internal/platform/worker.go:394-564 | exactly when an event is filtered, a duplicate, undeliverable, delivered or dead-lettered; otherwise the consumer stops |
| `CommandActors.FailedDownlink` | internal/platform/worker.go:518-546 | a failed downlink requeues with backoff and dead-letters |
| `CommandActors.ConfirmedDownlink` | internal/platform/worker.go:547-563 | a confirmed downlink marks sent with its deadline before the commit |
| `CommandActors.HandleAckMessage` | internal/platform/worker_ack.go:79-173 | PUBACK only if the message is hopeless, persisted or dead-lettered; hopeless ones change nothing; others are stored once; a run of the protocol |
| `TelemetryStore.TelemetryTables.RestoreTelemetry` | internal/platform/postgres_store.go:407-478 | reply and new tables; only a new row touches the device state |
| `TelemetryStore.TelemetryTables.MarkTelemetryWritten` | internal/platform/postgres_store.go:486-492 | marks exactly the keyed row |
| `TelemetryStore.RestoredRowsOk` | internal/platform/postgres_store.go:407-478 | serials stay distinct and every row keeps its key, a receive time and a registered device |
| `DeviceLiveness.SeenIsLatestAlways` | internal/platform/postgres_store.go:439-470 | after any history, last-seen is the maximum receive time over the stored records and names one that has it |
| `DeviceLiveness.LatestIsUnique` | internal/platform/postgres_store.go:439-470 | the stored records alone determine last-seen |
| `DeviceLiveness.OrderIndependent` | internal/platform/postgres_store.go:439-470 | histories that stored the same records agree on last-seen, in any order and with any duplicates |
| `DeviceLiveness.SeenIsLatestInRuns` | internal/platform/postgres_store.go:439-470 | the same in every state of every run of the pipeline, whatever fails |
| `DeviceLiveness.RunsAgree` | internal/platform/worker.go:327-331 | two runs that stored the same records agree on last-seen |
| `TelemetryConservation.WorkedDelivery` | internal/platform/mqtt_bridge.go:141-195 | a bridge step keeps the invariant of its delivery, acknowledged only when kept |
| `TelemetryConservation.OffsetsAdvance` | internal/platform/worker.go:285-392 | the worker moves an offset only past a covered event |
| `TelemetryConservation.MarksStay` | internal/platform/postgres_store.go:486-492 | no step sets a completion mark without an accepted write |
| `TelemetryConservation.CountedStays` | internal/platform/mqtt_bridge.go:205-251 | the wait group and the slots count exactly the deliveries under way, within the concurrency limit |
| `TelemetryConservation.InvStays` | internal/platform/mqtt_bridge.go:141-195 | every step of bridge, worker, compensation and other producers keeps the invariant |
| `TelemetryConservation.InvAlways` | internal/platform/mqtt_bridge.go:141-195 | the invariant holds in every state of every run |
| `TelemetryConservation.OneOutcome` | internal/platform/mqtt_bridge.go:141-195 | a delivery is acknowledged at most once and ends acknowledged or failed, never both or neither |
| `TelemetryConservation.AcknowledgedTelemetrySurvives` | internal/platform/worker.go:285-392 | from its acknowledgement on, a message is a dead letter, a pending or accepted row, or an uncommitted, filtered or dead-lettered event |
| `TelemetryConservation.WrittenMeansAccepted` | internal/platform/worker.go:365-385 | a row marked written was accepted by TDengine |
| `TelemetryConservation.CommittedMeansCovered` | internal/platform/dead_letter.go:107-112 | a committed offset's event is stored, dead-lettered or outside the allowlist |
| `TelemetryConservation.DrainedStaysDrained` | internal/platform/mqtt_bridge.go:233-251 | once stopped with nothing pending, every delivery has its outcome and nothing is admitted again |
| `TelemetryActors.Backends.ProcessMessage` | internal/platform/mqtt_bridge.go:141-176 | the bridge's steps in order, a run of the pipeline; what the message leaves in tables, Kafka and dead letters for every combination of faults, and acknowledged if and only if it is held somewhere |
| `TelemetryActors.BridgedMeaning` | internal/platform/mqtt_bridge.go:141-195 | a readable message is stored and published with the record the inbox holds; an unreadable or unpublished one is dead-lettered |
| `TelemetryActors.Backends.RecordInbox` | internal/platform/mqtt_bridge.go:141-176 | the inbox write acknowledges exactly when the record is durable |
| `TelemetryActors.Backends.PublishRecord` | internal/platform/mqtt_bridge.go:141-176 | publish, then dead-letter if that is not reported; one outcome with the inbox acknowledgement |
| `TelemetryActors.Backends.BridgeDeadLetter` | internal/platform/mqtt_bridge.go:178-195 | dead-letters, acknowledging or failing only a message that is not durable yet |
| `TelemetryActors.Backends.ConsumeTelemetry` | internal/platform/worker.go:285-392 | the worker's steps in order, a run of the pipeline; what the event leaves in tables, TDengine and dead letters, and when its offset moves, for every combination of faults |
| `TelemetryActors.ConsumedMeaning` | internal/platform/worker.go:285-392 | a new or unwritten row of a registered device is written to TDengine and marked, a written one causes no write, a filtered event nothing, any failure a dead letter |
| `TelemetryActors.Backends.DeadLetterEvent` | internal/platform/dead_letter.go:107-112 | the commit follows only a dead letter reported stored |
| `TelemetryActors.Backends.StoreRecord` | internal/platform/worker.go:327-385 | stores, and asks for a sink write of the stored record if and only if a sink is configured and the row is new or unwritten |
| `TelemetryActors.Backends.WriteAndMark` | internal/platform/worker.go:365-385 | marks only after the sink accepted, and dead-letters otherwise |
| `Compensation.Compensator.ListUnwrittenTelemetry` | internal/platform/postgres_store.go:498-528 | the overdue unwritten rows of allowed tenants after the cursor in id order, none left out but past a full batch, and the cursor behind them |
| `Compensation.Compensator.CompensateTelemetryRows` | internal/platform/worker.go:620-648 | writes and marks row by row, passing over other tenants and rejected rows, stopping at a cancellation or the first unavailable row |
| `Compensation.Compensator.CompensateTick` | internal/platform/worker.go:571-612 | one tick on the tables, skipped on a scan error, and a run of the pipeline |
| `Compensation.TickIsRun` | internal/platform/worker.go:571-648 | a tick is a run of compensation writes and marks that ends in the mirrored state |
| `Compensation.WorkHonest` | internal/platform/worker.go:620-648 | writes only rows the sink took, marks only accepted ones and each whose mark works; done if and only if no row met a cancellation or an unavailable sink |
| `Compensation.CursorPassesOnlyHandledRows` | internal/platform/worker.go:571-648 | an empty batch sends the cursor back to the start; otherwise it moves to the end of the batch if and only if every row was accepted, rejected or not allowed |
| `Compensation.TickHandles` | internal/platform/worker.go:571-612 | with a responsive sink, a tick handles every pending row up to its new cursor, all of them if the batch was not full |
| `Compensation.TickCuts` | internal/platform/worker.go:571-612 | and leaves at least a batch fewer rows in any wider scope |
| `Compensation.NoStarvation` | internal/platform/worker.go:571-648 | from the start, ceil(n/500) ticks get every row accepted that was eligible and is not rejected, wherever rejected ones sit, whichever marks fail and however the age bound advances |
| `Compensation.ReachedAgain` | internal/platform/worker.go:571-648 | from any cursor, a row behind it is reached again after the scan wrapped, and accepted unless rejected |
| `PageCursor.IssuedCursorAccepted` | internal/platform/list_filters.go:76-103 | an issued cursor decodes to its position under the same filters if and only if its key can be carried |
| `PageCursor.ForeignCursorRefused` | internal/platform/list_filters.go:65-103 | a cursor is refused under any other filter, order or kind |
| `PageCursor.CursorBelongs` | internal/platform/list_filters.go:65-103 | a cursor is accepted if and only if it was issued for the same kind, tenant, device, category, window and order, at a time of the kind's precision |
| `PageCursor.NormalizeIdempotent` | internal/platform/list_filters.go:13-56 | a normalised request, with its tenant, device, type and status checks, normalises to itself |
| `PageCursor.NormalizeMeaning` | internal/platform/list_filters.go:13-56 | exactly which requests are refused; the page size defaults to 50 and the order to newest first, nothing else changes |
| `PageCursor.NanosecondCursorRefused` | internal/platform/list_filters.go:80-103 | a cursor with a sub-microsecond time is refused |
| `Pagination.FiltersAgree` | internal/platform/postgres_store.go:586-619 | the truncated SQL filter selects what the in-memory filter selects |
| `Pagination.SortOrdered` | internal/platform/memory_pages.go:45-87 | sorting rows with distinct keys gives a strictly ordered list |
| `Pagination.SortContents` | internal/platform/memory_pages.go:45-87 | sorting permutes the rows |
| `Pagination.SelectSort` | internal/platform/memory_pages.go:45-87 | filtering commutes with sorting |
| `Pagination.ListingMeaning` | internal/platform/memory_pages.go:45-123 | a listing holds exactly the stored rows of the tenant, device, category and window asked for, in time order by the direction asked for, ids breaking ties |
| `Pagination.ResponsePageBudget.Accept` | internal/platform/page_budget.go:18-30 | the verdict on a row and the bytes charged |
| `Pagination.FillMeaning` | internal/platform/page_budget.go:11-30 | a page is the longest prefix within both bounds; it fails if and only if its first row alone is too large |
| `Pagination.FillLooksAhead` | internal/platform/page_budget.go:11-30 | rows beyond one more than the limit never influence a page |
| `Pagination.ScanPage` | internal/platform/memory_pages.go:45-87 | the loop computes the page cut from the rows after the cursor |
| `Pagination.MemoryPage` | internal/platform/memory_pages.go:45-87 | decode, sort and scan give rows asked for behind the cursor, in order and within both bounds; whatever is left out comes later, and there is a cursor if and only if something is |
| `Pagination.SimplePageMeans` | internal/platform/memory_pages.go:45-87 | the same of the specification, for any collation and distinct keys |
| `PageTraversal.SqlPage` | internal/platform/postgres_store.go:1035-1067 | the page cut from whatever the ordered limited query answered |
| `PageTraversal.LimitIsPrefix` | internal/platform/postgres_store.go:1035-1067 | any answer in order with nothing earlier left out is the prefix of the sorted candidates |
| `PageTraversal.FastRefinesSimple` | internal/platform/postgres_store.go:1035-1067 | keyset query, limit and budget give the simple page and cursor, in both directions, for any collation |
| `PageTraversal.FastAgreesExactly` | internal/platform/postgres_store.go:1035-1081 | the exact condition under which they do, for every accepted cursor |
| `PageTraversal.ZeroTimeCursorLoops` | internal/platform/postgres_store.go:1076-1081 | newest first over ordinary times, a zero-time cursor makes the query start over where the simple form ends |
| `PageTraversal.ZeroTimeCursorRestarts` | internal/platform/postgres_store.go:1076-1081 | a command cursor at the zero time selects what no cursor selects |
| `PageTraversal.PageAt` | internal/platform/memory_pages.go:45-87 | the page behind the k-th row is cut from exactly the rows after it, and its cursor is accepted |
| `PageTraversal.KeysetAt` | internal/platform/postgres_store.go:1035-1067 | at every position of a traversal the query's answer gives the simple page |
| `PageTraversal.PageStep` | internal/platform/page_budget.go:18-30 | what one page delivers: a non-empty slice within bounds, a cursor if and only if rows remain |
| `PageTraversal.Traverse` | internal/platform/memory_pages.go:45-123 | following cursors, in memory or through the query, terminates having delivered all rows asked for, each once and in time order, or everything before the first oversized row |
| `PageTraversal.TraversalMeaning` | internal/platform/memory_pages.go:45-123 | it fails if and only if some row alone exceeds the budget; otherwise the pages concatenate to the listing |
| `JsonNumber.PlainKeepsValue` | internal/contracts/jsonb.go:91-116 | expanding an exponent keeps the number's value and, but for zero, its sign, for every literal |
| `JsonNumber.StrippedLength` | internal/contracts/jsonb.go:91-116 | how many integer digits an expanded number keeps |
| `JsonNumber.PlainChargedNoMore` | internal/contracts/jsonb.go:91-116 | every number's plain form is charged no more than the number |
| `JsonNumber.PlainStaysInRange` | internal/contracts/jsonb.go:91-116 | an accepted number expands to an accepted one, with at most 131072 and 16383 digits |
| `JsonNumber.InRangeExactly` | internal/contracts/jsonb.go:91-106 | a number is accepted if and only if its exponent is at most 131072 and its expansion has at most 131072 integer digits besides leading zeros and 16383 fraction digits |
| `JsonNumber.ChargeExactly` | internal/contracts/jsonb.go:107-116 | a number is charged exactly the characters of its unstripped expansion |
| `JsonbBudget.ValidateBudget` | internal/contracts/jsonb.go:73-127 | accepts if and only if the text fits, every token can be stored, and the tokens written out with separators fit |
| `JsonbBudget.ChargeTokens` | internal/contracts/jsonb.go:73-127 | the running total with early exit decides soundness and charge of all tokens |
| `JsonbBudget.ChargeIsLength` | internal/contracts/jsonb.go:73-127 | the charge is exactly the UTF-8 length of the tokens, escaped and expanded, with two bytes after each |
| `JsonbBudget.ChargeCoversRendering` | internal/contracts/jsonb.go:73-127 | for every tree the charge covers the text printed with exponents expanded and separators, for any key order |
| `JsonbBudget.ChargeCoversText` | internal/contracts/jsonb.go:73-127 | the charge of a tree without exponents covers its own text |
| `JsonbBudget.NormalTames` | internal/contracts/jsonb.go:34-127 | jsonb normalisation of any document is expanded, charged no more, and as sound as the document |
| `JsonbBudget.NormalKeepsLatest` | internal/platform/postgres_store.go:425-433 | a stored object has each key once, in order, with the last value given for it |
| `JsonText.QuoteReadBack` | internal/contracts/jsonb.go:84-90 | unescaping undoes escaping, for every string |
| `JsonText.PrintedParses` | internal/contracts/jsonb.go:73-83 | reading what is printed gives the document back, for every document without exponents |
| `JsonGrammar.SpelledParses` | internal/contracts/jsonb.go:40-42 | every spelling of a document, with any white space, escapes and number forms, is read as that document |
| `JsonGrammar.ParseExactly` | internal/contracts/jsonb.go:40-42 | a text is read as a document if and only if it spells that document |
| `JsonbText.EncodeInverse` | internal/contracts/jsonb.go:40-42 | the UTF-8 bytes the scan reads carry exactly their character |
| `JsonbText.ParsedHasChunks` | internal/contracts/jsonb.go:40-72 | every text that parses consists of bytes outside strings and well-formed literals, as the scan relies on |
| `JsonbText.PrintedClean` | internal/contracts/jsonb.go:45-72 | every printed document passes the surrogate scan |
| `JsonbText.ValidateText` | internal/contracts/jsonb.go:34-127 | accepts if and only if the text spells a document at most 10000 deep without half a surrogate pair, whose text and tokens fit and can be stored |
| `JsonbText.AcceptedStaysAccepted` | internal/platform/postgres_store.go:425-433 | what is printed for an accepted text's stored document reads back as that document and passes the whole check again, for any key order |
| `SurrogateScan.PairedIsWellPaired` | internal/contracts/jsonb.go:45-72 | the left-to-right pairing rule is well-paired UTF-16 |
| `SurrogateScan.CleanText` | internal/contracts/jsonb.go:45-72 | on lexically valid bytes the byte-level rule holds if and only if every string is paired |
| `SurrogateScan.ScanUnit` | internal/contracts/jsonb.go:45-72 | one step of the scan consumes one unit or one pair, in bounds |
| `SurrogateScan.ScanString` | internal/contracts/jsonb.go:45-72 | the scan of one string ends on its closing quote if and only if it is paired |
| `SurrogateScan.ScanSurrogates` | internal/contracts/jsonb.go:45-72 | in bounds on every valid text, and accepts if and only if every string is well-paired UTF-16, equally by the byte-level rule |
| `UniqueJson.ValueSound` | internal/contracts/request_json.go:41-95 | an accepted value is the stream of a tree within depth and without repeated keys |
| `UniqueJson.ValueComplete` | internal/contracts/request_json.go:41-95 | every such tree's stream is accepted, to its end |
| `UniqueJson.CheckIsExact` | internal/contracts/request_json.go:41-95 | accepted if and only if the tokens are one value at most 128 deep with no repeated key, under any renaming of root keys |
| `UniqueJson.CheckFoldsRoot` | internal/contracts/request_json.go:41-109 | the same with root keys compared up to case-folding orbits when asked, exactly otherwise |
| `UniqueJson.ValidateUniqueJSON` | internal/contracts/request_json.go:41-109 | the recursive descent, folding root keys in place when asked, terminates and decides exactly that; a stream that breaks off in a decoder error is refused |
| `UniqueJson.Decoder.ReadValue` | internal/contracts/request_json.go:41-95 | reads one value in place, to the position the specification gives |
| `CaseFolding.FoldRune` | internal/contracts/request_json.go:97-109 | the loop returns the smallest rune of the orbit |
| `CaseFolding.FoldJSONField` | internal/contracts/request_json.go:97-109 | the in-place loop gives each rune its orbit's smallest |
| `CaseFolding.FoldedNamesEqual` | internal/contracts/request_json.go:97-109 | folded names are equal if and only if the names are equal up to case-fold orbits |
| `TopicCodec.SplitJoin` | internal/contracts/topic.go:82-91 | splitting undoes joining slash-free parts |
| `TopicCodec.JoinSplit` | internal/contracts/topic.go:82-91 | joining undoes splitting, for every string |
| `TopicCodec.TopicCodecInverse` | internal/contracts/topic.go:26-91 | an address builds a topic if and only if the topic parses to the address |
| `TopicCodec.UsernameCodecInverse` | internal/contracts/topic.go:41-58 | the same for usernames, with device ids that contain colons |
| `TopicCodec.TopicMatches` | internal/demo/service.go:425-442 | true if and only if the levels match one by one, a plus sign matching any |
| `TopicCodec.FilterSelectsTenant` | internal/contracts/topic.go:72-77 | a tenant's filter selects, among device topics, exactly that tenant's command topics |
| `DlqReplay.ReplayKeepsRecord` | cmd/dlq-replay/main.go:220-276 | a replay sends the dead-lettered content to the topic its stage asks for; a missing receive time becomes the dead letter's where it has one and the event's otherwise, never the replay's |
| `DlqReplay.ReplayedAckOwnsTopic` | cmd/dlq-replay/main.go:196-218 | an acknowledgement is replayed if and only if it names a command and its own device's topic |
| `DlqReplay.BridgeLetterReplayable` | cmd/dlq-replay/main.go:220-276 | a message that missed Kafka is replayed if and only if it came from its own device's topic and can be dated |
| `DlqReplay.OtherLetterReplayable` | cmd/dlq-replay/main.go:220-276 | exactly which other dead letters are replayed |
| `DlqReplay.LoopSafe` | cmd/dlq-replay/main.go:71-145 | a run keeps every wanted, decodable record below the committed offset sent as planned |
| `DlqReplay.LoopDurable` | cmd/dlq-replay/main.go:71-145 | a run sends only from its start on, within its limit, and below its committed offset unless it aborted |
| `DlqReplay.LoopCounts` | cmd/dlq-replay/main.go:71-145 | a run counts exactly the records of its stage it went past, and stops early only at its limit or when none come |
| `DlqReplay.CalmRunReplaysAll` | cmd/dlq-replay/main.go:71-145 | a run in which nothing fails replays every decodable record of its stage |
| `DlqReplay.DryRunChangesNothing` | cmd/dlq-replay/main.go:173-180 | a dry run moves no offset and sends nothing |
| `DlqReplay.GroupsDistinct` | cmd/dlq-replay/main.go:164-169 | default groups are equal if and only if the stages are, or one is empty and the other is `all` |
| `DlqReplay.ReplayHidesNothing` | cmd/dlq-replay/main.go:71-180 | over any history of arrivals and runs, no decodable record of the stage below the offset is unsent |
| `DlqReplay.DefaultGroupsHideNothing` | cmd/dlq-replay/main.go:164-180 | the same for default groups: any mix of stages is safe for each named stage, and for no stage if no run names `all` |
| `DlqReplay.DefaultGroupsSafeIff` | cmd/dlq-replay/main.go:164-180 | every history of default-group runs is safe for a job if and only if the job names a stage |
| `DlqReplay.AllStageHides` | cmd/dlq-replay/main.go:164-169 | a history in which a run with stage `all` hides a record from a job without a stage |
| `DlqReplay.HiddenOnlyOnceSent` | cmd/dlq-replay/main.go:71-276 | and each such record was sent with content and times intact |
| `DlqReplay.OtherStageHides` | cmd/dlq-replay/main.go:159-169 | one run of any other stage in the group can hide a record |
| `DlqReplay.Replayer.Replay` | cmd/dlq-replay/main.go:71-145 | the loop computes the specified progress, keeps it safe, and after reaching the end of the log nothing wanted is unsent |
| `TraceRotation.WriteKeepsOrder` | internal/platform/trace_file.go:143-170 | one call appends what it reports and drops at most the oldest backup, whatever fails |
| `TraceRotation.RotationKeepsOrder` | internal/platform/trace_file.go:143-170 | after any calls, the files oldest first are the end of everything appended |
| `TraceRotation.RotationBounded` | internal/platform/trace_file.go:143-170 | with a backup, no history takes a file over the budget |
| `TraceRotation.BudgetHoldsIff` | internal/platform/trace_file.go:112-170 | every history stays within the budget if and only if there is a backup or the budget is zero |
| `TraceRotation.TraceFileWriter.CleanOversized` | internal/platform/trace_file.go:121-141 | removes only oversized files, and on success all of them |
| `TraceRotation.TraceFileWriter.Rotate` | internal/platform/trace_file.go:152-162 | the rename loop, stopping at the rename that fails |
| `TraceRotation.TraceFileWriter.Write` | internal/platform/trace_file.go:143-170 | new files, reported bytes and error; order kept, and the budget with a backup; a record that fits leaves the backups alone, one that does not starts a fresh file, and a record within the budget is refused only if something failed |

## Left out

- HTTP, REST and gRPC handlers, authentication, TLS, metrics and logging: wrappers with easy or no invariants.
- SQL text, wire formats, base64, SHA-256, bcrypt and UTF-8 decoding: abstract values and predicates stand for them.
- Real timers, context deadlines and goroutine scheduling: steps interleave arbitrarily and carry their own time.
- The in-memory store's command creation and acknowledgement: only its listing and paging are modelled.
- Listing of devices and tenants, and the other `ListBytes` cost functions: the page theorems hold for any row cost.
- The demo simulator apart from topic matching, migrations, dashboards, deployment files and start-up code.
- Fetch errors and retries of the Kafka readers: a failed fetch changes nothing and is retried or ends the process.
- CommandActors.HandleAckMessage: the waiting time between tries is not modelled, because it affects no state.
- PageTraversal.Traverse: rows do not change while the cursors are followed.
- Compensation.NoStarvation: no rows arrive during the counted ticks and the sink answers for every row.
- CommandSweeps.RoundServicesAll: nothing else is locked or changed while the counted scans run.
- CommandSweeps.RoundsEndAll: the same within one pass of one scan; between passes any steps may happen.
