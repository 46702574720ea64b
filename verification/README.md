# Espial Core: verified model of the monitoring pipeline

This project models the part of Espial Core that carries monitoring facts from an adapter process
to an operator: observation ingest and current health, the durable signal journal, the incident
rule machine and its operator workflow, the notification outbox, the live event hub, and the
runtime that schedules, restarts and talks to adapter processes. It states what these parts keep
over every run and proves it.

`dafny verify dfyconfig.toml` checks the whole project.

## How the model is built

Each component has a value module and, beside it, a class.

* The value module (`IncidentModel`, `Outbox`, `Hub`, `HealthCache`, `Process`, `Scheduler`,
  `Supervisor`, ...) has one function per transaction or atomic step, a `Step` that chooses among
  them, and a `Run` over an arbitrary sequence of steps. A transaction of the program takes its row
  locks before it decides anything, so it is one step. The main results are lemmas about `Run`,
  that is, about every interleaving.
* The class (`IncidentStore.Store`, `OutboxStore.Worker`, `HubStore.LiveHub`, `HealthStore.Store`,
  `Diagnostics.DiagnosticBuffer`, `Process.Control`, `SchedulerStore.Dispatcher`,
  `SupervisorStore.Supervised`) updates its tables and fields in place, with the program's loops and
  early returns. The methods of the stores, the buffer and `Control` are proved to do exactly what
  the functions say and to keep the module's invariant. `LiveHub`, `Dispatcher` and `Supervised`,
  where several parties act at once, carry a ghost `trace`: their validity says that the fields are
  those of the run `trace` describes, and every method extends it. So the results about runs are
  results about the fields these methods leave behind.

Tables are sequences or maps; a generated identifier is the next position of an append-only table
and therefore fresh. Clocks, random draws, the winning rule, an active maintenance window, the set
of eligible owners, lock-skipping row selection and what a remote endpoint answers are parameters:
the results hold for every choice of them.

| file | component |
|---|---|
| `Basics.dfy` | shared types, truncation to microseconds, powers of two |
| `Debounce.dfy` | rule counters, and their refinement of the signal history |
| `IncidentModel.dfy`, `IncidentInvariants.dfy`, `IncidentRuns.dfy`, `IncidentStore.dfy` | incident engine: tables, invariant, whole-run results, code |
| `IncidentAnswers.dfy` | the exact answer to every operator request |
| `IncidentColumns.dfy` | who writes which column, and what the timeline is told |
| `IncidentJournal.dfy` | leases, failures and recorded outcomes of signals |
| `IncidentLateRecovery.dfy` | a run of the engine in which a recovered incident cannot be resolved |
| `IncidentPaging.dfy` | pages of incidents fetched while the engine runs |
| `Outbox.dfy`, `OutboxStore.dfy` | notification outbox |
| `OutboxOutcomes.dfy` | what a delivery's result decides, and who may claim when |
| `Hub.dfy`, `HubStore.dfy` | live event hub, one step per channel operation |
| `HubLoss.dfy` | a run of the hub that loses an event |
| `Health.dfy`, `HealthCache.dfy`, `HealthStore.dfy` | freshness, ingest and the current-health cache |
| `HealthIngest.dfy` | which inputs and batches are accepted, and what they leave |
| `Paging.dfy` | keyset pagination |
| `Process.dfy` | single-flight adapter calls |
| `ProcessOutcomes.dfy` | what ends a call, what fails the process |
| `Scheduler.dfy`, `SchedulerStore.dfy` | coalescing collection dispatch |
| `SchedulerHistory.dfy` | what the scheduler's state says about its past |
| `Supervisor.dfy`, `SupervisorStore.dfy` | persisted restart back-off |
| `Diagnostics.dfy` | byte-bounded diagnostic buffer |

## Where the code does less than one might expect

Each of these has a concrete witness or an exact condition among the lemmas.

* The hub can lose an event without a resync that covers it. Handlers receive from their channels
  without the hub's lock, also between two rounds of the loop that drains a full channel. If the
  drain has discarded an event, the handler then receives a later one, and the connection ends
  before the resync notice is written, the client reconnects beyond the discarded event and is never
  told (`AbandonedSessionLosesAnEvent`). `GapIffAbandoned` says that this is the only way and that
  it always loses one; a client that is never cut off while its notice is pending misses nothing
  (`ReadNoticesLeaveNoGap`).
* Resolving a recovered incident can be refused by the table's own constraint
  `resolved_at >= recovered_at`: a recovery dated ahead of the clock makes it so
  (`FutureRecoveryBlocksResolve`), and nothing else does (`RecoveredResolvesIff`).
* The due predicate of the freshness worker misses a state change exactly when the clock has gone
  back past a transition (`DueIsAging`, `BackwardClockHidesAChange`). What the cache references, its
  signals and its counts do not depend on the clock: transactions read it before they take their
  locks, so their readings commit in any order.
* A page walk may show a row twice if a writer moves its time back (`BackwardMoveRepeats`). The
  operator workflow always moves `updated_at` forward; the evaluator moves it back exactly when its
  reading is earlier than the incident's last write (`MovesForwardIff`).
* A protocol version set while a call is under way is the version its response is checked against
  (`VersionMayMoveDuringACall`), and nothing else makes the versions differ
  (`CallsGetTheirOwnResponse`). The program sets the version once, in `core/internal/adapters/session.go:58`,
  between two calls of the goroutine that starts the session, so it meets the condition of
  `PayloadHasRequestVersion` and every payload has its own request's version.
* Truncation to microseconds can bring a restart forward by less than two microseconds;
  it does not exactly when both parts are whole microseconds (`TruncationOfRestartTime`).
* A client of the event stream that reconnects before it has received any event has no
  `Last-Event-ID` and starts anew; its log begins there.

## Model

| member | source | states |
|---|---|---|
| `Debounce.TrailingRunIsMaximal` | core/internal/incidents/evaluator.go:431-482 | the reference definition means what it should: run length and start are those of the longest block of signals of one state at the end of the history |
| `Debounce.StepRefinesHistory` | core/internal/incidents/evaluator.go:216-258 | one transaction on a row derived from a history gives the row derived from the longer history, and the decision the history calls for |
| `Debounce.StreamRefinesHistory` | core/internal/incidents/evaluator.go:216-258 | after every input sequence the streamed counters, start times and deadline equal those derived from the whole signal history; maintenance breaks a run, and exactly the signals dated before the last accepted one are ignored |
| `Debounce.DecisionsFollowHistory` | core/internal/incidents/evaluator.go:431-482 | the machine opens or recovers on the next input exactly when the trailing run meets count and duration |
| `Debounce.ReachedDeadlineFires` | core/internal/incidents/evaluator.go:691-770 | a stored deadline is run start plus duration of a run that met its count; polled when reached it opens or recovers and never defers again |
| `Debounce.OneLiveRun` | core/internal/incidents/evaluator.go:431-482 | matching and recovery runs are never both live, and a run is live exactly when it counts a signal |
| `IncidentModel.FindUnresolved` | core/migrations/000009_incidents.sql:64-65 | the row the unique index on unresolved fingerprints would collide with, or none exactly when every incident of that key is resolved |
| `IncidentInvariants.DetectedOnceAndFirst` | core/internal/incidents/evaluator.go:508-595 | an unbroken timeline has exactly one detection, and nothing but delivery evidence before it |
| `IncidentInvariants.WriteKeepsLedger` | core/internal/incidents/evaluator.go:534-628 | a legal row write with its timeline entry keeps every incident's timeline replaying to its row |
| `IncidentInvariants.ActHasEffect` | core/internal/incidents/evaluator.go:484-628 | a decision writes only the incident its rule state names or inserts one new incident, and reports a change exactly when the tables changed |
| `IncidentInvariants.LinkAfterAct` | core/internal/incidents/evaluator.go:484-628 | saving the rule state after its action keeps both directions of the link between rule states and unresolved incidents |
| `IncidentInvariants.ProcessKeeps` | core/internal/incidents/evaluator.go:182-279 | processing any signal keeps the whole invariant and changes the ledger by at most one legal step |
| `IncidentInvariants.DueKeeps` | core/internal/incidents/evaluator.go:691-770 | the same for processing a due rule state, also when its rule is gone |
| `IncidentInvariants.OperateKeeps` | core/internal/incidents/workflow.go:97-281 | the same for every operator action, accepted, replayed or refused |
| `IncidentInvariants.StepKeeps` | core/internal/incidents/evaluator.go:182-279 | the same for every kind of transaction |
| `IncidentInvariants.RunKeeps` | core/internal/incidents/evaluator.go:112-180 | the invariant holds after every interleaving |
| `IncidentRuns.OneUnresolvedPerKey` | core/internal/incidents/evaluator.go:484-628 | in every interleaving a rule state names an incident exactly when that incident has its key and is unresolved; so at most one unresolved incident exists per fingerprint |
| `IncidentRuns.TimelineTellsEveryIncident` | core/internal/incidents/evaluator.go:508-628 | replaying an incident's timeline gives its current status and severity by legal transitions only, starting with its one detection; recovery and resolution times are set exactly in the statuses that have them |
| `IncidentRuns.RowStep` | core/internal/incidents/evaluator.go:534-594 | a transaction writes a row at most once and adds exactly one to its version; resolved is absorbing |
| `IncidentRuns.VersionCountsWrites` | core/internal/incidents/evaluator.go:534-594 | over any run the version grows by the number of transactions that wrote the incident |
| `IncidentRuns.EvaluatorSparesResolved` | core/internal/incidents/workflow.go:222-230 | the evaluator never writes a resolved incident nor its timeline |
| `IncidentRuns.VersionCheckDetectsWrites` | core/internal/incidents/workflow.go:147-158 | a request naming the version its caller read gets a version conflict exactly when some transaction wrote the incident in between; if it succeeds the row is still the one that was read |
| `IncidentRuns.MutationCommitsOrChangesNothing` | core/internal/incidents/workflow.go:97-281 | a first success writes one legal transition, one timeline event and exactly the columns of its action, dated just after the last update at the earliest; a resolve releases every rule state that named the incident and no other; a replayed or refused request changes nothing |
| `IncidentAnswers.FirstRequestIsDecided` | core/internal/incidents/workflow.go:138-218 | a first-time request at the current version succeeds exactly when: acknowledge from open, investigate from acknowledged, assign to an eligible owner unless resolved, a note always, resolve from recovered and not dated before the recovery; the refusal is the exact one otherwise |
| `IncidentAnswers.EveryRequestIsAnswered` | core/internal/incidents/workflow.go:97-281 | the exact answer to every request: malformed, replayed, reused key, missing incident, stale version, refused or done, stated on the request and the row alone |
| `IncidentRuns.RecoveredResolvesIff` | core/migrations/000009_incidents.sql:59-61 | a recovered incident resolves at its current version exactly when its recovery is not dated after the resolution; otherwise nothing changes |
| `IncidentLateRecovery.FutureRecoveryBlocksResolve` | core/internal/incidents/evaluator.go:597-628 | a run from the empty tables, with its appends, claims and processing, after which that refusal happens |
| `IncidentRuns.ReceiptStays` | core/internal/incidents/workflow.go:257-270 | a receipt is never changed or removed |
| `IncidentRuns.RetriesAgree` | core/internal/incidents/workflow.go:283-306 | after a success a retry under the same key, at any later point of any run, changes nothing and gets the same version, status and event; another payload is refused |
| `IncidentRuns.CommitsAtMostOnce` | core/internal/incidents/workflow.go:113-120 | each actor, incident, action and key commits at most once in a run, exactly when its receipt appears |
| `IncidentRuns.SettledIsFinal` | core/internal/signals/signals.go:192-226 | a processed or dead-lettered signal never changes again, and processing it again changes nothing |
| `IncidentRuns.SignalTakesEffectOnce` | core/internal/incidents/evaluator.go:182-198 | whatever leases expire and whichever workers run late, a signal is evaluated at most once |
| `IncidentRuns.JournalStaysConsistent` | core/internal/signals/signals.go:53-78 | processed and dead-lettered exclude each other, source keys are unique, exactly the processed signals have a recorded outcome |
| `IncidentRuns.AttemptsAreBounded` | core/internal/signals/signals.go:133-190 | attempts never exceed the maximum the claims use |
| `IncidentRuns.StoredCountersRefineHistory` | core/internal/incidents/evaluator.go:395-482 | inside the full system, while a rule is unchanged, the stored debounce columns of a key are those derived from the history of signals the rule won for that key |
| `IncidentRuns.SignalsActByHistory` | core/internal/incidents/evaluator.go:216-279 | the incident tables change on a signal by exactly the decision that history calls for |
| `IncidentRuns.ReachedDeadlineActs` | core/internal/incidents/evaluator.go:691-770 | a due deadline in the full system acts by its run's own decision and clears, and its last signal has the run's state |
| `IncidentRuns.SignalsTakeHold` | core/internal/incidents/evaluator.go:431-628 | a signal that completes a run leaves its key with an active incident of the condition's severity, or with its incident recovered as of the signal; any other signal leaves the incidents alone |
| `IncidentRuns.DeadlinesTakeHold` | core/internal/incidents/evaluator.go:691-770 | the same for a reached deadline |
| `IncidentColumns.ActWrites` | core/internal/incidents/evaluator.go:484-628 | a decision writes only the incident it is about: version plus one, this reading, the later of the two signal times, and no operator column; or adds one open, unowned incident |
| `IncidentColumns.OpeningYields` | core/internal/incidents/evaluator.go:487-523 | opening names the one unresolved incident of its key, a new one exactly when there was none; it reports a change and tells the detection exactly when that incident was inserted at its own reading |
| `IncidentColumns.ActTells` | core/internal/incidents/evaluator.go:508-628 | one timeline entry exactly when the decision calls for one, of exactly that kind: detection, recurrence, severity change, another certificate reason, or recovery; dated and caused by the signal |
| `IncidentColumns.SignalsWriteAndTell` | core/internal/incidents/evaluator.go:216-279 | over every run under an unchanged rule a signal writes exactly the columns and tells exactly the entry that the decision of its history calls for |
| `IncidentColumns.DeadlinesWriteAndTell` | core/internal/incidents/evaluator.go:691-770 | the same for a reached deadline |
| `IncidentColumns.EvaluatorSparesOperatorColumns` | core/internal/incidents/evaluator.go:534-628 | whatever rules win, an evaluation leaves owner, acknowledgement, resolution and birth of every incident alone, and the latest signal time never moves back |
| `IncidentColumns.EvaluatorAddsUnowned` | core/internal/incidents/evaluator.go:487-523 | an incident the evaluator adds is nobody's, not acknowledged and created at its reading |
| `IncidentColumns.OperatorColumnsTellOperators` | core/internal/incidents/workflow.go:215-328 | after every run an incident's owner is that of its last committed assignment, its acknowledgement that of the last committed acknowledgement, its resolution that of its committed resolution |
| `IncidentColumns.RuleStateRemembers` | core/internal/incidents/evaluator.go:216-258 | after every run a rule state names the last signal it accepted and the reason code of the last one it evaluated |
| `IncidentColumns.DeadlineIsDropped` | core/internal/incidents/evaluator.go:712-770 | a due deadline whose rule is gone, disabled or another's is cleared, one under maintenance takes its run with it, one not reached changes nothing; no incident changes |
| `IncidentColumns.NotificationIsEvidence` | core/internal/notifications/worker.go:282-290 | delivery evidence is one more timeline entry without phases, and nothing else |
| `IncidentJournal.AppendAddsOne` | core/internal/signals/signals.go:53-78 | a new signal waits from its time on with no attempt used; a known source key adds nothing |
| `IncidentJournal.LeasesIff` | core/internal/signals/signals.go:133-190 | a claim takes a signal exactly when it is pending, available, out of lease and has attempts left; it counts one attempt and lasts for the lease |
| `IncidentJournal.FailureRetriesOrGivesUp` | core/internal/signals/signals.go:207-226 | a failed pending signal is available again after the delay and is given up exactly when it has used its attempts |
| `IncidentJournal.ProcessingSettles` | core/internal/signals/signals.go:192-205 | processing a pending signal dates it and ends its lease, and changes nothing else in its row |
| `IncidentJournal.LeaseIsExclusive` | core/internal/signals/signals.go:145-226 | whatever happens in between, the next lease of a signal comes no earlier than the end of the last one, or than the delay of its failure |
| `IncidentJournal.SettledExactlyWhen` | core/internal/signals/signals.go:192-226 | over every run a signal is dead-lettered exactly when the failure of its last attempt was reported while it was pending, and processed exactly when a worker evaluated it |
| `IncidentJournal.OutcomeIsRecorded` | core/internal/incidents/evaluator.go:199-279 | the recorded outcome says exactly which of the five things became of the signal: no rule, too old or debounced, maintenance, a change, no condition |
| `IncidentJournal.OutcomeTellsEvaluation` | core/internal/incidents/evaluator.go:182-279 | over every run the recorded outcome is what became of the signal at its one evaluation |
| `IncidentStore.Store.Append` | core/internal/signals/signals.go:53-78 | one journal row per source key, as `AppendSignal` says; the invariant is kept |
| `IncidentStore.Store.FirstClaimable` | core/internal/signals/signals.go:145-157 | the first claimable unlocked signal by time and then in the order written, or none exactly when there is none |
| `IncidentStore.Store.Claim` | core/internal/signals/signals.go:133-190 | leases the first claimable unlocked signals by time and then in the order written, as many as the limit allows, and nothing else; each is pending, leased and within its attempts; options out of range get 50 rows, 30 seconds and 8 attempts |
| `IncidentStore.Store.Fail` | core/internal/signals/signals.go:207-226 | a pending row loses its lease, possibly late, is available again after the delay, and is dead-lettered exactly when it has used its attempts, by default 8; a settled row is left alone |
| `IncidentStore.Store.OpenOrUpdateIncident` | core/internal/incidents/evaluator.go:484-595 | reopen, severity change, certificate condition change or touch, as the row's status demands; only the named incident is written, and no operator column of it |
| `IncidentStore.Store.OpenNewIncident` | core/internal/incidents/evaluator.go:487-523 | inserts one open, unowned incident exactly when no unresolved one of the fingerprint exists; reports a change, and tells the detection, exactly when the incident it names was inserted at this reading |
| `IncidentStore.Store.RecoverIncident` | core/internal/incidents/evaluator.go:597-628 | recovers the named incident unless it is recovered or resolved; only that one is written, and no operator column of it |
| `IncidentStore.Store.EvaluateState` | core/internal/incidents/evaluator.go:431-482 | the counters and the incident action of one evaluation, for a signal and for a deadline |
| `IncidentStore.Store.ApplyRule` | core/internal/incidents/evaluator.go:212-270 | one pending signal under its winning rule: too old, under maintenance, or evaluated |
| `IncidentStore.Store.Process` | core/internal/incidents/evaluator.go:182-279 | the tables move exactly as `ProcessSignal` says and stay consistent, and the recorded outcome says what became of the signal |
| `IncidentStore.Store.FirstDue` | core/internal/incidents/evaluator.go:697-711 | the first due unlocked rule state by deadline, rule and resource, or none exactly when every due one is locked |
| `IncidentStore.Store.ProcessDueState` | core/internal/incidents/evaluator.go:712-770 | the tables move exactly as `ProcessDue` says and stay consistent, and the deadline is gone |
| `IncidentStore.Store.ProcessOneDue` | core/internal/incidents/evaluator.go:691-770 | the due rule state that comes first by deadline, rule and resource is processed under its rule and windows and is then no longer due; nothing changes exactly when none is due and unlocked |
| `IncidentStore.Store.CheckMutation` | core/internal/incidents/workflow.go:138-218 | a first-time request at the current version passes exactly when the row's status, recovery time and the proposed owner allow its action; otherwise the refusal is that of the program's order |
| `IncidentStore.Store.CommitMutation` | core/internal/incidents/workflow.go:215-270 | row, rule states, timeline and receipt of an accepted request |
| `IncidentStore.Store.Mutate` | core/internal/incidents/workflow.go:97-281 | every request gets exactly the answer of `EveryRequestIsAnswered`, and the tables move as `Mutate` says |
| `Outbox.NormalizeOptions` | core/internal/notifications/worker.go:42-62 | options in range are kept; others become 30 seconds, 6 attempts and 5 minutes |
| `Outbox.RetryDelayBounds` | core/internal/notifications/worker.go:358-373 | every wait is at least the capped back-off or requested delay, at most a quarter longer, and never above the cap |
| `Outbox.BackoffGrows` | core/internal/notifications/worker.go:358-373 | later attempts never back off less |
| `Outbox.JudgeWaits` | core/internal/notifications/worker.go:231-241 | a retry becomes available after its guaranteed wait, counted from its completion, and before the cap |
| `Outbox.NextClaimWaits` | core/internal/notifications/worker.go:154-242 | over every run, whatever happens in between, the next claim of a retried intent comes no earlier than its completion plus the back-off or the requested delay, capped |
| `Outbox.RunKeeps` | core/internal/notifications/worker.go:154-356 | the outbox invariant holds for any number of workers and any lease expiries |
| `Outbox.OutboxStaysConsistent` | core/internal/notifications/worker.go:154-356 | attempting means holding a token, attempt rows have distinct numbers within the count, the count never exceeds the maximum, one intent per event and destination |
| `Outbox.RowStep` | core/internal/notifications/worker.go:227-300 | a transaction leaves a row alone or brings it strictly closer to a terminal state; only a claim adds to the count |
| `Outbox.RunsSpendRank` | core/internal/notifications/worker.go:154-356 | a run changes an intent at most as often as its rank allows, its count grows by exactly its claims, a spent rank means a terminal state, and a terminal row never changes |
| `Outbox.NeverStuck` | core/internal/notifications/worker.go:302-356 | from some instant on a claim or the dead-letter step is enabled for every non-terminal intent |
| `Outbox.StaleClaimIsPowerless` | core/internal/notifications/worker.go:248-260 | a claim that lost its row changes nothing, now or at any later point of any run |
| `Outbox.LostStays` | core/internal/notifications/worker.go:165-172 | a lost claim never regains its row |
| `Outbox.TakeoverLosesClaims` | core/internal/notifications/worker.go:154-198 | claiming a row loses every earlier claim on it |
| `Outbox.CompletionLosesClaim` | core/internal/notifications/worker.go:227-300 | completing records one attempt and loses the claim |
| `Outbox.ClaimRecordsOnce` | core/internal/notifications/worker.go:227-300 | a claim records its result at most once however often it is completed |
| `Outbox.EnqueueCovers` | core/internal/notifications/writer.go:56-96 | every enabled destination has an intent for the event afterwards |
| `Outbox.EnqueueTwiceAddsNothing` | core/internal/notifications/writer.go:56-96 | enqueueing covered destinations again adds nothing |
| `OutboxOutcomes.WaitsAreSpread` | core/internal/notifications/worker.go:358-373 | the random part of a wait: every draw below a quarter of the shortest wait is added in full up to the cap, and no wait is longer |
| `OutboxOutcomes.DeliveryDecides` | core/internal/notifications/worker.go:227-300 | a held claim becomes delivered exactly on a delivery, waits for a retry exactly when retryable below the maximum, is dead-lettered exactly when retryable at it, fails exactly otherwise; the attempt row has the matching outcome and nothing else changes |
| `OutboxOutcomes.EndedExactlyWhen` | core/internal/notifications/worker.go:227-356 | over every run an intent is in a terminal state exactly when a completion by its holder, the sweep of its expired last claim, or a silence at its birth put it there |
| `OutboxOutcomes.DeliveredIffReported` | core/internal/notifications/worker.go:227-300 | over every run an intent is delivered exactly when some completion by its holder reported delivery |
| `OutboxOutcomes.ClaimTakesIff` | core/internal/notifications/worker.go:154-198 | after every run a claim takes an intent exactly when it is not terminal, is free and has attempts left; one more attempt under an unused token |
| `OutboxOutcomes.SweepTakesIff` | core/internal/notifications/worker.go:302-356 | after every run a sweep gives an intent up exactly when its last claim has expired |
| `OutboxOutcomes.LeaseIsExclusive` | core/internal/notifications/worker.go:154-198 | over every run nobody else claims a held intent before its lease is over |
| `OutboxOutcomes.EnqueuedAreNew` | core/internal/notifications/writer.go:56-96 | enqueueing only adds intents of this event to its destinations: queued and free, or suppressed for good exactly under a silence |
| `OutboxStore.ComputeRetryDelay` | core/internal/notifications/worker.go:358-373 | the doubling loop and its caps compute the specified delay, at least the capped back-off or requested delay and at most the cap |
| `OutboxStore.Worker.SelectClaimable` | core/internal/notifications/worker.go:157-165 | the first claimable unlocked row in query order, or none exactly when there is none |
| `OutboxStore.Worker.Lease` | core/internal/notifications/worker.go:165-198 | leases the row under a fresh token and one more attempt |
| `OutboxStore.Worker.ClaimNext` | core/internal/notifications/worker.go:154-198 | claims the unlocked claimable row that comes first by availability, creation and position and holds it, or changes nothing exactly when there is none |
| `OutboxStore.Worker.CompleteClaim` | core/internal/notifications/worker.go:227-300 | the holder puts its intent into the one state the delivery calls for and records one attempt with the matching outcome; a stale claim changes nothing |
| `OutboxStore.Worker.SweepExpired` | core/internal/notifications/worker.go:302-356 | dead-letters exactly an expired claim on its last attempt |
| `OutboxStore.Worker.EnqueueEvent` | core/internal/notifications/writer.go:19-96 | one intent per destination afterwards; each new one is queued, or suppressed for good exactly under a silence |
| `Hub.GapIffAbandoned` | core/internal/events/hub.go:72-167 | over every interleaving of handlers, drains, publications and reconnects by last id, and unless a notice is pending: an event is neither received nor covered by a notice exactly when some session received an event after its drain had discarded an earlier one and ended before its notice was read, and no notice was read since |
| `Hub.NothingLostWithinASession` | core/internal/events/hub.go:72-167 | within one session every event published since it began is received, covered, waiting in the channel or being offered, or the session's own notice is pending |
| `Hub.ReadNoticesLeaveNoGap` | core/internal/api/sse.go:89-100 | a client that is never cut off while its notice is pending loses nothing |
| `Hub.DeliveredInOrder` | core/internal/api/sse.go:63-100 | over every run the client's log has its changes in the order of their ids, each with the payload it was published with |
| `HubLoss.AbandonedSessionLosesAnEvent` | core/internal/events/hub.go:152-167 | a run in which event 1 is discarded, event 2 received, the notice not read, and the reconnect goes on with event 3 |
| `Hub.ReplayIsContiguous` | core/internal/events/hub.go:72-94 | over every run replay is the contiguous last min(nextID, limit) events, where the limit is the given one or 1024; channels stay within capacity, dropped counts the subscribers forced to resync, and the notice of a drain finds room |
| `Hub.FillDelivers` | core/internal/events/hub.go:107-140 | replaying a window that reaches the cursor fills the channel with exactly the later events if they fit, and otherwise forces one resync at the first event that did not |
| `Hub.ResyncIff` | core/internal/events/hub.go:107-140 | a reconnecting client is told to resync exactly when its id is ahead of the hub, misses more than the replay holds, or misses more than its channel holds; the notice's id in each case; otherwise its channel holds exactly the events it missed |
| `Hub.WindowIff` | core/internal/events/hub.go:121-123 | with the replay every run has, the window test is exactly: ahead of the hub, or more missed than the last min(nextID, limit) events |
| `Hub.BetweenAt` | core/internal/events/hub.go:72-94 | what the reference list of consecutive events holds at each position |
| `Hub.RunKeeps` | core/internal/events/hub.go:72-177 | the hub invariant, with the client's past, holds after every run |
| `HubStore.LiveHub.Interfere` | core/internal/api/sse.go:89-100 | handlers receive any number of events at any time; channels only get shorter and the fields stay those of a run |
| `HubStore.LiveHub.ForceResync` | core/internal/events/hub.go:152-167 | the drain loop ends although handlers receive between its rounds, leaves one notice, counts one drop, and its send finds room |
| `HubStore.LiveHub.Send` | core/internal/events/hub.go:83-92 | one subscriber's turn: it is told to resync exactly when its channel was full |
| `HubStore.LiveHub.Broadcast` | core/internal/events/hub.go:83-92 | every subscriber gets its turn, in any order, with handlers receiving in between |
| `HubStore.LiveHub.Publish` | core/internal/events/hub.go:72-94 | the event gets the next id, exactly this payload is published, replay is contiguous, dropped counts the forced, and the fields are those of the longer run |
| `HubStore.LiveHub.ReplayInto` | core/internal/events/hub.go:124-136 | the replay loop with its early exit fills the channel as `Fill` says |
| `HubStore.LiveHub.Subscribe` | core/internal/events/hub.go:107-140 | a number of its own; the new channel holds exactly the events after the given id, and instead one notice exactly when the id is ahead, has fallen out of the window or misses more events than the channel holds |
| `HubStore.LiveHub.Unsubscribe` | core/internal/events/hub.go:169-177 | the subscriber is removed, once or repeatedly, and nobody else |
| `Health.DueIsAging` | core/internal/monitoring/freshness.go:112-115 | the due predicate holds exactly when evaluation would age the row further; it agrees with "evaluation gives another state" exactly unless the clock went back past a transition |
| `Health.DueIffStateChanges` | core/internal/monitoring/freshness.go:112-115 | under a clock that does not go back, due exactly when evaluation gives another state |
| `Health.BackwardClockHidesAChange` | core/internal/monitoring/freshness.go:112-115 | a witness that the clock condition is needed |
| `Health.EvaluatedIsNotDue` | core/internal/health/evaluator.go:24-66 | a row just evaluated is not due |
| `Health.FreshnessSchedule` | core/internal/health/evaluator.go:8-66 | an observation keeps its state for its refresh interval and a grace of half of it, at least 30 seconds; then it is stale, and unknown from three intervals on, never before the grace is over; disabled and unknown ones stay so |
| `Health.EvaluationTells` | core/internal/health/evaluator.go:24-66 | the reason, the observation, the schedule and the last success of a row follow from its state and observation |
| `Health.ComparisonIsTotal` | core/internal/health/evaluator.go:79-99 | the comparison says which observation is newer: by observation time, then receipt, then identifier; it is antisymmetric, transitive and total on distinct identifiers |
| `HealthCache.LatestIsMaximum` | core/internal/observations/repository.go:183-207 | the chosen observation is the newest of its check: none was observed later, received later at the same time, or has a greater identifier at the same times |
| `HealthCache.AbsorbAllKeeps` | core/internal/observations/service.go:127-154 | a batch in progress keeps keys unique, one signal per observation, and counts each input once |
| `HealthCache.IngestKeeps` | core/internal/observations/service.go:88-197 | an accepted batch keeps the cache sound, inserted plus duplicate equals its size, and affected checks agree with fresh evaluation |
| `HealthCache.ResendAddsNothing` | core/internal/observations/repository.go:92-181 | sending an accepted batch again, at any later point of any run, inserts nothing and adds no signal; only a clock gone back beyond the allowed skew has it rejected, and then nothing happens |
| `HealthIngest.InputIsStoredOrRecognised` | core/internal/observations/repository.go:92-181 | an input is stored, with exactly its content and receipt, exactly when neither its identifier nor its delivery is there; it is a duplicate exactly when it was stored before; otherwise it conflicts |
| `HealthIngest.BatchIsAcceptedIff` | core/internal/observations/validate.go:27-137 | a batch is accepted exactly when it has at most 1000 inputs, each reports a state, a refresh interval of 1 to 86400 seconds and a time at most five minutes ahead, and none conflicts with what is stored by its turn |
| `HealthIngest.AcceptedBatchIsStored` | core/internal/observations/service.go:127-154 | an accepted batch adds only observations its inputs tell, and every input is stored afterwards |
| `HealthIngest.BatchWritesRows` | core/internal/observations/service.go:156-197 | the row of every check in the batch says what the newest observation says at the receipt and is rewritten exactly when it did not say so before; other rows stay |
| `HealthCache.ClaimedRowChanges` | core/internal/monitoring/freshness.go:163-195 | every claimed row changes to the freshly evaluated state, only towards stale and unknown |
| `HealthCache.RefreshShrinksDue` | core/internal/monitoring/freshness.go:163-195 | a refresh takes exactly its rows off the due list, each with its signal, adds no other signal and leaves every other row alone |
| `HealthCache.NotDueIsFreshIff` | core/internal/monitoring/freshness.go:112-115 | a row that is not due agrees with fresh evaluation exactly when the instant is not before a transition the row was written after |
| `HealthCache.DrainedCacheIsFresh` | core/internal/monitoring/freshness.go:71-82 | when nothing is due and no row was written with a later reading, every row agrees with a fresh evaluation of its newest observation |
| `HealthCache.DrainedRunIsFresh` | core/internal/monitoring/freshness.go:71-82 | the same after every run whose readings, in whatever order they committed, are not after the instant |
| `HealthCache.RunKeeps` | core/internal/observations/service.go:88-197 | the cache invariant holds after every sequence of batches and refreshes, with clock readings in any order |
| `HealthCache.CacheTracksMaximum` | core/internal/observations/service.go:156-197 | after every run, with readings in any order, a check has a row exactly when it has an observation, the row references the newest one by observation time, receipt and identifier, and each observation has its one signal |
| `HealthCache.LastSuccessNeverDecreases` | core/internal/health/evaluator.go:37-43 | last success never moves back and no row disappears |
| `HealthStore.Store.InsertBatch` | core/internal/observations/service.go:127-154 | the insert loop with its early exit on conflict |
| `HealthStore.Store.RecomputeChecks` | core/internal/observations/service.go:156-197 | the recomputation loop gives every affected check the row of its newest observation, in any order |
| `HealthStore.Store.IngestBatch` | core/internal/observations/service.go:88-197 | all of the batch or nothing, at any reading of the clock; accepted exactly when it has at most 1000 inputs, each is proper and none conflicts |
| `HealthStore.Store.SelectDue` | core/internal/monitoring/freshness.go:103-121 | the due unlocked rows whose transition was due first, at their unknown time if stale and else at their stale time, then by resource; as many as the limit allows |
| `HealthStore.Store.ApplyTransitions` | core/internal/monitoring/freshness.go:163-195 | the update loop moves the tables as `Refresh` says |
| `HealthStore.Store.RefreshDue` | core/internal/monitoring/freshness.go:96-204 | every claimed row leaves the due list |
| `HealthStore.Store.Drain` | core/internal/monitoring/freshness.go:70-82 | the batch loop ends with nothing due, and with a fresh cache if no earlier reading was later |
| `Paging.NormalLimit` | core/internal/incidents/reader.go:226-234 | limits from 1 to 200 are kept; smaller ones become 50 and larger ones 200 |
| `Paging.ListingHolds` | core/internal/incidents/reader.go:46-60 | the query without limit holds exactly the rows stamped by the snapshot that match and lie below the cursor, the newest first and by descending identifier within one time |
| `Paging.ListingBelow` | core/internal/incidents/reader.go:47-57 | cutting at a row's position leaves exactly what follows it |
| `Paging.PageSplitsListing` | core/internal/incidents/reader.go:65-88 | a page is the next part of the listing; it has a cursor, the position of its last row, exactly when rows are left, and the cursor stands for them |
| `Paging.FollowCursors` | core/internal/incidents/reader.go:24-89 | following cursors ends and concatenates to exactly the filtered list, newest first, with no empty last page |
| `Paging.PageMissesNothing` | core/internal/incidents/reader.go:106-177 | a page shows an eligible row or leaves it below its cursor |
| `Paging.WalkNeverRepeats` | core/internal/incidents/reader.go:24-89 | while writers only add rows or rewrite them at no earlier time, no row appears twice |
| `Paging.UntouchedRowAppearsOnce` | core/internal/incidents/reader.go:24-89 | and every untouched eligible row appears exactly once |
| `Paging.BackwardMoveRepeats` | core/internal/incidents/reader.go:47-57 | a row moved back below the cursor is shown twice |
| `IncidentPaging.MovesForwardIff` | core/internal/incidents/workflow.go:215-219 | a transaction of the engine moves no incident back in the list exactly when it is not an evaluation that writes an incident with an earlier reading than its last write |
| `IncidentPaging.RunsEvolve` | core/internal/incidents/evaluator.go:534-628 | the tables seen along a run that never does are such that no row moves back |
| `IncidentPaging.PagesOfARunNeverRepeat` | core/internal/incidents/reader.go:24-89 | pages fetched at any points of such a run show no incident twice |
| `Process.RunKeeps` | core/internal/adapters/process.go:156-231 | the call protocol's invariant holds in every interleaving of callers, reader, stop, exit and version changes |
| `Process.AtMostOneCallInFlight` | core/internal/adapters/process.go:175-192 | at most one call is between registration and return |
| `Process.CallsGetTheirOwnResponse` | core/internal/adapters/process.go:307-375 | a successful call returns the one response ever sent to it, with its own request id and operation, and with its own version exactly when the last version set while it waited, if any, is that version |
| `Process.PayloadHasRequestVersion` | core/internal/adapters/session.go:54-58 | if versions are set only while no call is pending, every payload has its own request's version |
| `Process.NoResponseReachesTwoCalls` | core/internal/adapters/process.go:307-375 | no response reaches two calls |
| `Process.FirstFailureIsFinal` | core/internal/adapters/process.go:389-399 | the first failure is never replaced; afterwards no response is accepted and every new call is refused with it |
| `Process.VersionMayMoveDuringACall` | core/internal/adapters/process.go:233-237 | a witness that the version condition is needed |
| `ProcessOutcomes.ResultTellsEnding` | core/internal/adapters/process.go:156-231 | over every interleaving a call has a result exactly when one step ended it so: refused, a broken write, its response in time or late, the process's failure or exit, a timeout or a cancelled caller |
| `ProcessOutcomes.PhaseMoves` | core/internal/adapters/process.go:193-231 | a call waits once its request is written and until a step ends it, and returns what it ended with |
| `ProcessOutcomes.NewCallWrites` | core/internal/adapters/process.go:175-192 | a new call is registered exactly when the process has not failed, is not stopping under it and has no call pending |
| `ProcessOutcomes.ArrivalDecides` | core/internal/adapters/process.go:307-375 | every envelope is ignored after a failure, and otherwise leads to exactly the complaint there is, to the pending call if it is the first response for it, or to the starter if it is the first ready |
| `ProcessOutcomes.ResponseIsSent` | core/internal/adapters/process.go:369-375 | an accepted response reaches its call's channel, which is empty, and nothing else changes |
| `ProcessOutcomes.ReadyIsPassedOnOnce` | core/internal/adapters/process.go:314-327 | the ready notification is passed on at most once, so its channel is never full |
| `ProcessOutcomes.FailureIsFirstReport` | core/internal/adapters/process.go:377-399 | over every interleaving the recorded failure is the first one reported: a broken write, a late or missing response or a caller that gave up unless the stop called, a complaint of the reader, an exit nobody asked for |
| `ProcessOutcomes.FlagsTellRun` | core/internal/adapters/process.go:233-305 | the process is stopping from the first stop on, has exited from its exit on, speaks the version set last, and counts as stopped only after both |
| `Process.Control.ContinueReader` | core/internal/adapters/process.go:369-399 | an accepted response is sent once on its call's channel, which is empty, and otherwise the first failure is recorded and stays |
| `Process.Control.RegisterCall` | core/internal/adapters/process.go:175-191 | refused with the first failure, while stopping or while another call is pending, in this order, and registered exactly otherwise |
| `Process.Control.DispatchToPending` | core/internal/adapters/process.go:346-375 | acceptance of a response under the lock, or the failure it is |
| `Process.Control.ReturnCall` | core/internal/adapters/process.go:401-407 | a returning call clears the pending slot only if it is its own |
| `Scheduler.ConcurrencyIsBounded` | core/internal/scheduler/scheduler.go:104-121 | over all interleavings at most the configured number of collections execute at once, four without configuration, and each run has at most one in flight |
| `Scheduler.IdleRunOwesNothing` | core/internal/scheduler/scheduler.go:122-161 | a live idle run with an empty trigger owes no collection |
| `Scheduler.OwedUntilStarted` | core/internal/scheduler/scheduler.go:122-161 | a wake-up is owed until a collection of that run starts |
| `Scheduler.NoWakeUpIsLost` | core/internal/scheduler/scheduler.go:68-161 | when a live run is idle again, a collection has started after every tick it consumed and every request it accepted |
| `Scheduler.OwedCollectionApproaches` | core/internal/scheduler/scheduler.go:104-161 | a live run that owes a collection can always move closer to it, unless all tokens are held by executing collections |
| `SchedulerHistory.WorkersMove` | core/internal/scheduler/scheduler.go:104-161 | when a run's collection goroutine starts, takes a token, reports, gives up and is done with, in every step |
| `SchedulerHistory.FactsTellPast` | core/internal/scheduler/scheduler.go:68-161 | in every interleaving the state of a run tells its past: a tick or trigger waits from its sending to its consumption, a wake-up is kept while the collection it found is under way, and the run has ended exactly when a failed result, a result after a cancellation or a cancellation without a collection ended it |
| `SchedulerHistory.RequestsReachNewest` | core/internal/scheduler/scheduler.go:68-97 | in every interleaving a request reaches exactly the newest run of its integration, and none exactly when that run has ended |
| `SchedulerStore.Dispatcher.Register` | core/internal/scheduler/scheduler.go:84-103 | a new run is idle, owes nothing and takes its integration's requests over; the invariant of all runs is kept |
| `SchedulerStore.Dispatcher.Request` | core/internal/scheduler/scheduler.go:68-81 | accepted exactly when a run is registered, and then a run of that integration that has not ended owes a collection |
| `SchedulerStore.Dispatcher.Wake` | core/internal/scheduler/scheduler.go:130-149 | the run has exactly one collection goroutine, and the wake-up waits behind it or is what it was started for |
| `SchedulerStore.Dispatcher.Finish` | core/internal/scheduler/scheduler.go:93-159 | the run ends exactly on a failure or a cancellation, with no goroutine left and no request reaching it; otherwise it collects for a remembered wake-up or is idle |
| `SchedulerStore.Dispatcher.Cancel` | core/internal/scheduler/scheduler.go:124-129 | a cancelled run ends at once or waits for its one collection |
| `SchedulerStore.Dispatcher.Acquire` | core/internal/scheduler/scheduler.go:106-113 | a collection starts exactly when a token is free, and waits only while the limit is executing |
| `SchedulerStore.Dispatcher.Report` | core/internal/scheduler/scheduler.go:115-119 | an executing collection holds the token it gives back, and one fewer is executing |
| `SchedulerStore.Dispatcher.Loop` | core/internal/scheduler/scheduler.go:122-161 | the event loop of one run with anything happening around it: the limit is kept, it has at most one goroutine, and when it is idle it owes nothing |
| `Supervisor.DoubleAndCap` | core/internal/adapters/policy.go:21-27 | the loop equals min(2^(n-1), 60) seconds, in nanoseconds |
| `Supervisor.ComputeRestartDelay` | core/internal/adapters/policy.go:11-29 | the delay is one second doubled per further failure, at most a minute, times the factor taken between 0.8 and 1.2; so within 0.8 s to 72 s |
| `Supervisor.DelayGrows` | core/internal/adapters/policy.go:11-29 | more failures never shorten the delay |
| `Supervisor.DelayFormula` | core/internal/adapters/policy.go:11-29 | the delay is the rounded-down product of min(2^(n-1), 60) seconds and the factor taken between 0.8 and 1.2 |
| `Supervisor.CounterCountsFailures` | core/internal/adapters/repository.go:124-184 | over whole runs the stored counter is the number of failures since the last healthy-period reset, across stops, crashes and reboots |
| `Supervisor.ResetNeedsHealthyPeriod` | core/internal/adapters/supervisor.go:164-237 | the timer resets the counter exactly when a session has been healthy, without failure, stop, crash or reset, for five minutes |
| `Supervisor.WorkingRowIsHealthy` | core/internal/adapters/supervisor.go:141-166 | a working session's row is healthy, so the reset always applies |
| `Supervisor.RowKeepsPendingRestart` | core/internal/adapters/repository.go:83-199 | the stored restart time is the one the run's last failure set, until a stop or a healthy session |
| `Supervisor.StartsWaitForBackoff` | core/internal/adapters/supervisor.go:86-111 | every start after a failure, with no stop that takes effect in between, happens no earlier than the stored failure time plus the delay for the failure count, across crashes and reboots |
| `Supervisor.LaunchesIff` | core/internal/adapters/supervisor.go:86-111 | a session starts exactly when the loop waits and the restart time of the last failure, unless a stop or a healthy session cleared it, is reached |
| `Supervisor.RowTellsMark` | core/internal/adapters/repository.go:83-199 | over every run the stored state is what the last failure, start, healthy session or stop says, and the supervisor is down exactly when it never booted or has stopped or crashed since |
| `Supervisor.TruncationOfRestartTime` | core/internal/adapters/repository.go:148-150 | how far microsecond truncation moves that time, and exactly when it does not |
| `SupervisorStore.Supervised.Launch` | core/internal/adapters/supervisor.go:86-111 | a session starts exactly when the loop waits and the restart time of the last failure, unless cleared since, is reached; otherwise nothing changes |
| `SupervisorStore.Supervised.MarkFailed` | core/internal/adapters/repository.go:124-170 | the counter rises and the restart is put off by the delay for it |
| `SupervisorStore.Supervised.EndSession` | core/internal/adapters/supervisor.go:117-140 | the row is marked unhealthy, its counter is one more than the failures since the last healthy period, and the restart is put off by the delay for that many |
| `SupervisorStore.Supervised.BecomeHealthy` | core/internal/adapters/supervisor.go:141-165 | the counter is kept, the restart time is cleared and the reset timer armed |
| `SupervisorStore.Supervised.FireReset` | core/internal/adapters/supervisor.go:228-237 | the counter is cleared exactly after five minutes of unbroken health, and otherwise nothing changes |
| `SupervisorStore.Supervised.Attend` | core/internal/adapters/supervisor.go:166-238 | the inner loop of a session that is up ends in waiting or stopped, with the stored columns telling the whole past |
| `SupervisorStore.Supervised.Supervise` | core/internal/adapters/supervisor.go:60-241 | however many sessions the loop goes through, the stored counter is the failures since the last healthy period and the stored restart time that of the last failure |
| `Diagnostics.WritesCompose` | core/internal/adapters/diagnostics.go:41-60 | splitting the input across writes in any way gives the same buffer |
| `Diagnostics.EvictKeepsLongest` | core/internal/adapters/diagnostics.go:85-89 | eviction keeps the longest suffix that leaves room |
| `Diagnostics.CommitKeepsLongest` | core/internal/adapters/diagnostics.go:77-96 | committing a line keeps the buffer the longest fitting suffix of the committed history |
| `Diagnostics.FeedKeeps` | core/internal/adapters/diagnostics.go:41-60 | every byte keeps size, suffix and dropped count right, even when secrets change in between |
| `Diagnostics.StreamDecidesBuffer` | core/internal/adapters/diagnostics.go:41-96 | the buffer is decided by the whole stream: history is its non-empty ended lines cut and redacted, entries the longest suffix that fits, dropped the cut lines and those no longer held |
| `Diagnostics.ShownTextFits` | core/internal/adapters/diagnostics.go:66-96 | after any stream the text of the lines held is at most the byte limit, and the text of more of the latest lines is not |
| `Diagnostics.DiagnosticBuffer.constructor` | core/internal/adapters/diagnostics.go:25-33 | an empty buffer with the given limits, or 64 KiB and 16 KiB |
| `Diagnostics.DiagnosticBuffer.SetSecrets` | core/internal/adapters/diagnostics.go:35-39 | changes nothing already held |
| `Diagnostics.DiagnosticBuffer.EvictFor` | core/internal/adapters/diagnostics.go:85-89 | the eviction loop |
| `Diagnostics.DiagnosticBuffer.CommitPending` | core/internal/adapters/diagnostics.go:77-96 | the buffer moves as `Commit` says |
| `Diagnostics.DiagnosticBuffer.WriteBytes` | core/internal/adapters/diagnostics.go:41-60 | the buffer moves as `Write` says and stays consistent |
| `Diagnostics.DiagnosticBuffer.AddLine` | core/internal/adapters/diagnostics.go:62-64 | the line and a newline are written after whatever is pending |
| `Diagnostics.DiagnosticBuffer.Snapshot` | core/internal/adapters/diagnostics.go:66-75 | the lines held, oldest first, each ended, redacted again as a whole, and the dropped count |

## Left out

- Rule selection: which enabled rule wins for a signal is a parameter of each transaction; matching precedence would add only local claims.
- Maintenance windows and silences: a boolean of each transaction; their own matching is not modelled.
- Rule edits: the debounce and deadline results are stated for a rule that does not change; the link, timeline, version and journal results need no such premise.
- IncidentStore.Store.FirstClaimable: journal rows are numbered in the order they are created, so the query's `created_at` and identifier are one order.
- IncidentStore.Store.FirstDue: which of two check types of one resource comes first under the same rule and deadline is left open, because text collation is not modelled.
- Liveness of the signal journal: a claim that expires on its last attempt has no sweep, so no claim of progress is made for it.
- Notification intents are enqueued inside the incident transaction; the outbox is its own model, and the incident model keeps only the delivery evidence it appends to the timeline.
- Text: titles, summaries, reasons and audit rows are dropped or opaque; identifier syntax checks are one flag of a request; notes are counted in characters after trimming.
- Request hashes are modelled as injective; cursor encoding, JSON and base64 as the identity.
- Resource upsert and external identifier resolution in ingest: an observation names its resource directly, and a batch holds observations only, so the record limit counts those.
- HealthCache.ResendAddsNothing: speaks of the same batch only; an explicit identifier does not determine resource and check, because the duplicate comparison ignores both.
- HealthStore.Store.Drain: one instance alone; rows locked by another instance are an argument of a single refresh only.
- Hub.GapIffAbandoned: speaks of one hub lifetime, because identifiers start again after a restart of Core.
- HubStore.LiveHub.Subscribe: handlers of other channels do not receive in the middle of it; their receives touch nothing it uses.
- Process, Scheduler and Supervisor: goroutines and channels are steps of a state machine at the granularity of lock sections and channel operations; the classes hold the critical sections, select arms and event loops, and what the other goroutines, process start and kill, and timers do arrives as arguments.
- Scheduler counters (coalesced, completed, maximum) and the timer delay computation: local arithmetic.
- Supervisor.ComputeRestartDelay: the factor is a real number, so floating-point rounding of the product is not modelled.
- Overflow of 64-bit durations, versions and identifiers is not modelled.
- HTTP handlers, event-stream byte format, configuration, sessions, adapters' network clients, the web interface.
