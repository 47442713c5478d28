# A verified model of the task platform

The platform runs tasks on workers fed by a Redis stream, keeps an event log from which it derives projections, streams
that log live to browsers, and removes personal data from payloads before they are stored. This project models the parts
of it whose correctness is hardest to see and proves what they promise. Every statement holds for all inputs, or for all
runs of a transition system; nothing is bounded.

Where a promise does not hold of the code, the code is modelled as it is, a concrete input or run shows the failure, and
the exact condition under which the promise does hold is proved.

`dafny verify dfyconfig.toml` checks the whole project.

## How it is organised

**Delivery, attempts and retries.** `Delivery` is a transition system whose shared state is what Postgres and the Redis
stream hold, and whose processes (any number of workers and reclaimers, and one due-task scheduler) keep the possibly
stale values they have read. One step is one write with the reads that decide it; a process may crash between any two.
`DeliveryInvariant` is one inductive invariant, `DeliverySteps` shows that each kind of step keeps it, `DeliveryTheorems`
draws the conclusions, `DeliveryRuns` speaks of continuations, `DeliveryEnds` settles what becomes of an attempt and a
retry whose worker died, `DeliveryExact` shows that the hypotheses are needed, `DeliveryRecovery` that nothing is ever
stuck, `DeliveryRaces` holds runs that break a promise, and `DeliveryPlatform` has the operations as methods of a class,
each proved to keep the invariant and to leave exactly the state it should. The hypotheses are:

- a claim does not fall between another worker's last attempt write and its run write (`Delivery.ClaimSafe`);
- an attempt is abandoned only if its owner takes no further step, and a delivery is handed over only if it has not been
  acknowledged meanwhile and no other live process acts on it, except a worker that has only the run left to finish
  (`Delivery.InspectSafe`, `Delivery.HandoverSafe`);
- the claim prefix of ProcessTask is one step, although it reads the run, its unfinished attempts and their number and
  then inserts (internal/worker/worker.go:85-117): two claims of one run do not interleave;
- a recovery decision is one step, although prepareRecovery reads the run, its unfinished attempts and the evidence about
  each owner one after the other (internal/worker/recovery.go:28-46): what it has read still holds when it decides. An
  attempt claimed by a worker that dies in between would otherwise be taken for a duplicate, and its delivery
  acknowledged;
- accepted database and Redis writes are not lost;
- a handler's outcome is one of the three constants.

The look-up of a retry child before a run is failed, and the read-back of a success before a run is completed, are also
joined with the write that follows. That supposes nothing: by `DeliveryTheorems.DefensiveBranchesAreDead` the answer is
the same in every state in which the worker is at that stage.

`DeliveryExact.ClaimExact` and `DeliveryExact.InspectExact` show that the first two are exact: from a good state the step
is harmless if and only if its condition holds. Where it does not hold, there is a continuation, with every hypothesis
kept from then on, in which a finished run is reopened, a run has two unfinished attempts, or an open run's attempt has
nothing unacknowledged behind it.

**Projections and recurring schedules.** `RunReducer` and `OccurrenceLedger` are the two reducers with exact conditions
for independence of arrival order; `RunByType` says what the first gives in the texts of the event types. `EventOrder` and `Rebuild` are the replay order and the rebuild of the projection
table. `ScheduleTimes`, `ScheduleClaim`, `ScheduleCover` and `ScheduleLedger` are occurrence ids, the compare-and-set claim by any
number of scheduler instances, that no occurrence disappears in it, and its composition with the ledger; clocks of different instances are
unrelated, and one instance's clock does not go back between its read and its claim. `ScheduleSummary` relates the loop to the
aggregate queries.

**Live stream.** `LiveHub`, `Coalesce`, `HandOff`, `LiveClient`, `SseParser`, `Scopes` and `SqlConditions` follow an event
from the hub to the browser.

**Personal data.** `PiiOverlap`, `PiiSplice`, `PiiPath`, `PiiJson`, `PiiJsonTheorems`, `PiiRedaction`, `PiiBridges` and
`Luhn` follow a finding into the document it is written into, whatever the findings are.

## What turned out differently from the comments

- `internal/events/run_reducer.go:82-83` says the same events in any order give the same projection. The whole record
  does if and only if no two different terminal statuses occur, a recovery does not meet a start without a terminal
  event, and no column mixes the zero time with a set one (`RunReducer.ProjectionExact`). Column by column:
  `StatusExact`, `StampExact`, `NoteExact`. Folding a log twice is always folding it once (`RunReducer.Idempotent`).
- `internal/events/schedule_projection.go:80-82` says the same of the occurrence ledger. The exact conditions are
  `OccurrenceLedger.OutcomeExact`, `RunExact`, `LatenessExact` and `RecordedExact`. The claim protocol supplies them for
  every column but the start lateness (`ScheduleLedger.LedgerIsOrderFree`), because a run may report its start more than
  once; that column is order-free if and only if all its starts are equally late (`ScheduleLedger.StartLatenessExact`).
- A second claim between "attempt Succeeded" and "run Completed" reopens a completed run
  (`DeliveryRaces.ReopenedWithoutClaimOrder`). Reclaiming from a live holder that has not claimed yet can lose the run
  (`DeliveryRaces.LostWithoutHandover`). Both hold in general, `DeliveryExact.ClaimExact` and `InspectExact`.
- With every hypothesis kept, a crash between the two failure writes leaves an unfinished attempt on a Failed run and no
  retry child (`DeliveryRaces.OrphanAttemptAndLostRetry`). An unfinished attempt of a finished run stays unfinished for
  ever if and only if its owner is gone (`DeliveryEnds.OrphanExact`); a retryable failure below the limit never gets its
  child if and only if its worker crashed between the run write and the creation (`DeliveryEnds.LostRetryExact`).
- The client's resume overlap of 5 tolerates events at most 4 ids behind the cursor; every id at least 5 behind can be
  lost (`LiveClient.FiveBehindIsLost`). In every run a published event is lost for ever if and only if it has not passed,
  is not on the connection, and lies at or before the resume point (`LiveClient.LostExact`).
- Overlapping findings can both be kept. Resolving keeps findings apart throughout if and only if no candidate displaces
  one kept finding while it conflicts with another (`PiiOverlap.ContestApartExact`, `PiiOverlap.ApartExactly`); a
  later finding can mend it (`PiiOverlap.MendedBridge`).
- Findings are resolved twice, by the callers (internal/worker/post_execution_scan.go:106, internal/taskservice/create.go:92)
  and again inside the rewrite, and what the first pass keeps the second can leave overlapping (`PiiBridges.ResolvedOnce`,
  `ResolvedTwice`). One replacement is then spliced into the other (`PiiBridges.ReplacementIsSplit`), and with masks
  shorter than what they hide the slice at internal/pii/pii_transformation.go:16-18 is out of range
  (`PiiBridges.ShortMaskPanics`). A document panics if and only if an edit of one of its strings, taken from the back,
  ends beyond the text as the edits before it leave it (`PiiSplice.PanicExact`, `PiiJsonTheorems.LeafPanicExact`,
  `PiiJsonTheorems.PanicsExactly`), so never if no replacement is shorter than what it hides, whatever overlaps
  (`PiiJsonTheorems.LongEnoughNeverPanics`). A leaf is rendered as intended when its rewriting kept findings do not overlap
  (`PiiJsonTheorems.LeafIsRendered`), and they do not when nothing bridges (`PiiJsonTheorems.UnbridgedLeafIsApart`).
- The path text is injective except for empty object keys at the very start of a path (`PiiPath.PathsEqualExactly`,
  `PiiPath.EmptyKeyCollides`).

## Model

| member | source | states |
|---|---|---|
| `AttemptOwnership.PlanRecovery` | internal/models/attempt_ownership.go:41-54 | waits exactly when the run is open and some owner may be alive; abandons exactly when it is open, has unfinished attempts and all owners are gone; never both |
| `AttemptOwnership.GoneExact` | internal/models/attempt_ownership.go:22-30 | for every history of heartbeats and instance starts of a worker id: judged gone exactly when it was started again after the claim or has no heartbeat at most a window old |
| `DeliveryTheorems.StepKeeps` | internal/worker/worker.go:82-323 | every step of scheduler, worker, reclaimer, crash or duplicate keeps the invariant under the stated hypotheses |
| `DeliveryTheorems.Reachable` | internal/worker/worker.go:82-323 | the invariant holds after every behaviour from the empty platform |
| `DeliveryTheorems.NoRunLost` | internal/worker/worker.go:289-323 | in every reachable state a Running run, or a Queued one with a confirmed publish, has an unacknowledged stream entry nobody is about to acknowledge, and each unfinished attempt of an open run is backed by its own delivery |
| `DeliveryTheorems.NothingFallsThrough` | internal/worker/scheduler.go:99-168 | every open run is Pending, or selected by the stranded sweep, or backed by the stream |
| `DeliveryTheorems.AttemptDiscipline` | internal/worker/worker.go:95-117 | attempt numbers are exactly 1..n, at most one attempt is unfinished, Completed only with a Succeeded attempt, Pending only with none |
| `DeliveryTheorems.FinishedRowStays` | internal/worker/worker.go:95-99 | no step changes a finished run's row except its published_at |
| `DeliveryTheorems.TerminalForever` | internal/worker/worker.go:95-99 | once Completed or Failed, a run is the same in every later state of the behaviour |
| `DeliveryTheorems.OneRunPerIndex` | internal/worker/worker.go:209-225 | a chain has at most one run per retry index |
| `DeliveryTheorems.EarlierRunsFailed` | internal/worker/worker.go:209-225 | every run with a successor in its chain is Failed |
| `DeliveryTheorems.ChainIsALine` | internal/worker/worker.go:182-227 | each execution chain is a line of at most four runs whose non-last members are Failed |
| `DeliveryTheorems.DefensiveBranchesAreDead` | internal/worker/worker.go:173-190 | the "retry child already exists" and "success not persisted" branches are unreachable |
| `DeliveryEnds.StepEnds` | internal/worker/worker.go:82-323 | every step keeps: an unfinished attempt has a live worker on it or its owner is gone, and nobody is about to abandon an unfinished attempt of a finished run |
| `DeliveryEnds.OrphanExact` | internal/worker/worker.go:198-202 | in every reachable state an unfinished attempt of a finished run stays unfinished in every continuation if and only if its owner is gone |
| `DeliveryEnds.LostRetryExact` | internal/worker/worker.go:182-227 | after a retryable failure below the limit, the run gets no child in any continuation if and only if its worker crashed between the run write and the creation |
| `DeliveryExact.GoodIsUnharmed` | internal/worker/worker.go:82-323 | from a good state no continuation reopens a finished run, doubles an unfinished attempt or leaves an open one without its delivery |
| `DeliveryExact.ClaimExact` | internal/worker/worker.go:85-117 | a claim is followed by no broken promise in any continuation if and only if no other worker is between its final attempt write and its run write |
| `DeliveryExact.InspectExact` | internal/worker/recovery.go:27-60 | a recovery decision is followed by no broken promise in any continuation if and only if it waits, the run is settled, or the delivery is unacknowledged, nobody else acts on it but a worker with only the run left to finish, and the owners are gone |
| `DeliveryRecovery.RecoverAfterOutage` | internal/worker/scheduler.go:138-168 | after any behaviour that ends with every process down, each open run can still be brought to a terminal status |
| `DeliveryRaces.LostWithoutHandover` | internal/worker/reclaimer.go:63-91 | a concrete run in which a delivery reclaimed from a live holder leaves a Running run with no unacknowledged entry |
| `DeliveryRaces.ReopenedWithoutClaimOrder` | internal/worker/worker.go:169-180 | a concrete run in which a claim inside the success window turns a Completed run back to Running |
| `DeliveryRaces.OrphanAttemptAndLostRetry` | internal/worker/worker.go:198-202 | a concrete behaviour, all hypotheses kept, that ends with a Failed run below the retry limit, an unfinished attempt, no child and no delivery |
| `DeliveryPlatform.Platform.ProcessTask` | internal/worker/worker.go:82-250 | a delivery is ignored, or ends its run with exactly one new attempt and, for a retryable failure below the limit, one Pending child; nothing else changes |
| `DeliveryPlatform.Platform.Succeed` | internal/worker/worker.go:165-180 | attempt Succeeded and run Completed, nothing else |
| `DeliveryPlatform.Platform.FailForGood` | internal/worker/worker.go:229-247 | attempt and run Failed, nothing else |
| `DeliveryPlatform.Platform.FailRetryable` | internal/worker/worker.go:182-227 | attempt and run Failed, and a child of the same chain with the next index exactly below the limit |
| `DeliveryPlatform.Platform.AckAndDelete` | internal/worker/delivery.go:46-60 | true exactly for the call that acknowledged a pending entry, and only then is the entry deleted |
| `DeliveryPlatform.Platform.ProcessStream` | internal/worker/worker.go:289-323 | the entry is acknowledged only after its run was dealt with |
| `DeliveryPlatform.Platform.PrepareRecovery` | internal/worker/recovery.go:27-84 | goes ahead unless the run is open and some owner has a heartbeat within the window and no instance started after the claim; false changes nothing, true leaves every claimed or started attempt of an open run Abandoned, a finished run as it was, and touches nothing else |
| `DeliveryPlatform.Platform.PublishTask` | internal/worker/scheduler.go:115-134 | a refused publish changes nothing; an accepted one adds the entry and sets published_at |
| `DeliveryPlatform.Platform.QueueAndPublish` | internal/worker/scheduler.go:99-110 | every due task becomes Queued; it has an entry and published_at exactly when Redis accepted it |
| `DeliveryPlatform.QueuedJobsAt` | internal/worker/scheduler.go:99-110 | each task of a batch ends Queued with its own publish result; no other run is touched |
| `DeliveryPlatform.SentEntriesAt` | internal/worker/scheduler.go:115-134 | exactly the accepted publishes are in the stream, each naming its task |
| `RunReducer.OrderFreeFacts` | internal/events/run_reducer.go:84-133 | for every log, flags, finality, Contradicted and last_event_at are the same for every permutation; Contradicted means exactly that two different terminal statuses occur |
| `RunReducer.Facts` | internal/events/run_reducer.go:84-133 | flags, finality and contradiction in terms of which events occur, without the fold |
| `RunByType.StatusByType` | internal/events/run_reducer.go:52-133 | in the texts of the event types: with one way of ending logged, the status is Completed, Failed or Blocked accordingly; with none and no recovery, the furthest of created, queued and started |
| `RunByType.FirstEndWins` | internal/events/run_reducer.go:114-127 | with several ways of ending, the first one logged is the status |
| `RunByType.RecoveryPutsBack` | internal/events/run_reducer.go:92-99 | after the last task.recovery_started an open run is Running exactly when task.started was logged since, and otherwise Queued |
| `RunByType.FlagsByType` | internal/events/run_reducer.go:84-133 | reclaimed, contradicted and last_event_at in terms of which types occur |
| `RunByType.TimesByType` | internal/events/run_reducer.go:70-112 | queued_at, started_at and completed_at are the earliest times of task.queued, of task.started, and of task.completed or task.failed |
| `RunByType.FirstNote` | internal/events/run_reducer.go:117-124 | the first contradiction is noted as, for instance, failed after Completed |
| `RunByType.NextNote` | internal/events/run_reducer.go:117-124 | a further one is added after a semicolon unless the note holds it already |
| `RunReducer.StampExact` | internal/events/run_reducer.go:70-75 | each timestamp is permutation-invariant if and only if the log does not mix a zero-time and a set-time event for it |
| `RunReducer.StatusExact` | internal/events/run_reducer.go:84-133 | the status is permutation-invariant if and only if no two different terminals occur and a recovery does not meet a start without a terminal |
| `RunReducer.NoteExact` | internal/events/run_reducer.go:84-133 | the contradiction note is permutation-invariant if and only if no two different terminal statuses occur |
| `RunReducer.ProjectionExact` | internal/events/run_reducer.go:82-133 | the whole record is permutation-invariant if and only if the status is and no column mixes a zero-time and a set-time event |
| `RunReducer.Idempotent` | internal/events/run_reducer.go:82-133 | folding a log followed by itself gives the same record, note included |
| `EventOrder.StrictTotalOrder` | internal/events/producer.go:48-59 | EventLess is irreflexive, transitive, and decides any two events with different ids |
| `EventOrder.ReplayOrder` | internal/events/producer.go:48-64 | after sorting, times do not decrease; at one time producers do not; of one producer sequence numbers do not; and what is level goes by row id |
| `TextOrder.TextLessExact` | internal/events/producer.go:48-59 | one text precedes another exactly when they agree up to a place where the first ends or has the smaller character |
| `InsertionSort.SortedIsOrdered` | internal/events/producer.go:62-64 | for every strict weak order the sorted sequence is ordered and a permutation |
| `InsertionSort.SortInPlace` | internal/events/producer.go:62-64 | the array is sorted in place, equal elements in their order |
| `EventOrder.SortEvents` | internal/events/producer.go:62-64 | the array becomes its ordered permutation, in place |
| `EventOrder.OrderingIsUnique` | internal/events/producer.go:48-64 | two ordered arrangements of the same events are the same sequence |
| `EventOrder.SortIsCanonical` | internal/events/producer.go:62-64 | sorting any two storage orders of the same events gives the same sequence |
| `Rebuild.ImpliedIsCanonical` | internal/events/projection.go:135-149 | computeRunProjection gives the same projection for every storage order of the same log |
| `Rebuild.ImpliedByType` | internal/events/projection.go:135-149 | the rebuilt status in the texts of the job's own stored events, and the task's status when they assert none |
| `Rebuild.EqualMeansKeptTheSame` | internal/events/projection.go:151-165 | projectionsEqual holds exactly when the database would keep the same of both, and always between a projection and what is stored of it |
| `Rebuild.SameMicrosecond` | internal/events/projection.go:151-165 | two times compare equal exactly when they fall in one microsecond |
| `Rebuild.AfterIsTheRest` | internal/events/projection.go:187-203 | paging by last id meets every selected task exactly once |
| `Rebuild.TallyIsZero` | internal/events/projection.go:167-173 | nothing missing and nothing wrong is reported exactly when every examined task has a right row |
| `Rebuild.TallyCounts` | internal/events/projection.go:201-226 | missing and wrong are the numbers of examined tasks without a row and with a row that is not right |
| `Rebuild.ProjectionStore.ComputeRunProjection` | internal/events/projection.go:135-149 | the fold of the sorted events, with the task's status when they assert none |
| `Rebuild.ProjectionStore.Examine` | internal/events/projection.go:201-226 | one task: counts, repairs or leaves its row, keeps identity on repair, touches no other row |
| `Rebuild.ProjectionStore.RebuildRunProjections` | internal/events/projection.go:183-247 | exact report; check mode changes nothing; apply mode leaves one right row per examined task, no junk, right rows untouched, other rows as they were |
| `Rebuild.SecondPassFindsNothing` | internal/events/projection.go:175-183 | after an applying pass a second one reports zero missing, wrong and junk |
| `Decimal.ParsePrint` | internal/events/schedule_projection.go:41-41 | ParseInt undoes %d on every 64-bit integer |
| `Decimal.PrintTenfold` | internal/worker/schedule_watch.go:29-31 | numbers are printed in base ten, most significant digit first |
| `ScheduleTimes.OccurrenceIdRoundTrip` | internal/events/schedule_projection.go:36-46 | expectedFromOccurrenceID undoes occurrenceID to the second for every schedule id, colons included |
| `ScheduleTimes.OccurrenceIdInjective` | internal/worker/schedule_watch.go:29-31 | two occurrences share an id exactly when schedule and second agree |
| `ScheduleTimes.IdCountsFrom1970` | internal/worker/schedule_watch.go:29-31 | the number in an id is the whole seconds since the first of January 1970 |
| `ScheduleTimes.SkippedOccurrences` | internal/worker/schedule_watch.go:35-54 | exactly the first `max` times that came due after the fired one and no later than now |
| `ScheduleClaim.ClaimWindow` | internal/worker/scheduler.go:192-197 | what one claim fires and skips falls in strictly later and later seconds, all before the next occurrence's second |
| `ScheduleClaim.NoticesAre` | internal/worker/scheduler.go:214-238 | a claim announces its occurrence as due, its run if one was created, and as skipped exactly the first 25 times expected + k * interval that came due by the winner's clock |
| `ScheduleCover.NextOccurrenceExact` | internal/worker/scheduler.go:193-207 | in every run each claim is won when its occurrence is due, and the next occurrence is the winner's clock plus the interval, cut to the microsecond |
| `ScheduleCover.EveryInstantIsClaimed` | internal/worker/scheduler.go:192-212 | in every run each instant up to next_run_at belongs to one claim and lies less than an interval after its winner's clock |
| `ScheduleCover.NothingDueDisappears` | internal/worker/scheduler.go:192-242 | in every run each time expected + k * interval due by a claim's clock is announced as due, announced as skipped, or past the first 25 of that claim |
| `ScheduleCover.DueIsClaimed` | internal/worker/scheduler.go:192-212 | in every reachable state an idle instance that sees a schedule due and fires first wins its occurrence |
| `ScheduleCover.EveryNoticeIsLogged` | internal/worker/scheduler.go:214-238 | an instance announces one notice after the other and is done only when all are in the log |
| `ScheduleClaim.StepKeeps` | internal/worker/scheduler.go:192-242 | reads, claims, announcements, crashes and run starts of any instance keep the invariant |
| `ScheduleClaim.NextRunAtIncreases` | internal/worker/scheduler.go:195-207 | in every run next_run_at moves only by a won claim, and then by at least the interval |
| `ScheduleClaim.EachOccurrenceOnce` | internal/worker/scheduler.go:192-242 | in every run no occurrence id is claimed twice, fired and skipped, or skipped twice |
| `ScheduleClaim.LogSupportsTheLedger` | internal/worker/scheduler.go:214-238 | logged events of one id never mix a skip with anything else, name one run, and repeat only starts |
| `ScheduleClaim.ScheduleStore.FireSchedule` | internal/worker/scheduler.go:192-242 | won exactly when next_run_at is still what was read; the winner writes its clock plus the interval, cut to the microsecond, and logs due, created and skips in order; a loser changes nothing |
| `OccurrenceLedger.LedgerColumns` | internal/events/schedule_projection.go:83-131 | the row of one occurrence column by column, the first decisive event winning |
| `OccurrenceLedger.OutcomeExact` | internal/events/schedule_projection.go:105-117 | the outcome is permutation-invariant if and only if a skip and a run do not both occur |
| `OccurrenceLedger.RunExact` | internal/events/schedule_projection.go:118-121 | run_id is permutation-invariant if and only if no run is named, or no skip occurs and one run is named |
| `OccurrenceLedger.LatenessExact` | internal/events/schedule_projection.go:122-127 | a lateness is permutation-invariant if and only if its event does not occur, or no skip occurs and its events are equally late |
| `OccurrenceLedger.RecordedExact` | internal/events/schedule_projection.go:98-100 | recorded_at is permutation-invariant if and only if the zero time is not mixed with later times only |
| `OccurrenceLedger.AlwaysOrderFree` | internal/events/schedule_projection.go:83-131 | last_event_at and expected_at are the same for every permutation of every log of one occurrence |
| `ScheduleLedger.LedgerIsOrderFree` | internal/events/schedule_projection.go:59-131 | in every run of the claim protocol, every column of an occurrence's row but the start lateness comes out the same for every arrival order of its events |
| `ScheduleLedger.StartLatenessExact` | internal/events/schedule_projection.go:122-127 | in every run of the claim protocol, the start lateness is the same for every arrival order if and only if all starts of the occurrence are equally late |
| `ScheduleLedger.LedgerTellsTheClaim` | internal/events/schedule_projection.go:59-131 | in every run and arrival order, an occurrence whose run was created is in the ledger as created with that run, its expected time and how late it was; a skipped one as skipped with no run |
| `ScheduleSummary.SummarizeSchedule` | internal/events/schedule_projection.go:135-167 | the result satisfies a declarative description of a summary: counts, and the latest of each kind |
| `ScheduleSummary.SummaryIsUnique` | internal/events/schedule_projection.go:135-167 | rows with set, distinct expected times have one summary, whatever their order |
| `ScheduleSummary.QueriesSummarize` | internal/events/schedule_projection.go:170-201 | the aggregate queries satisfy the same description |
| `ScheduleSummary.LoopEqualsQueries` | internal/events/schedule_projection.go:133-201 | the loop over the rows in any order equals the queries |
| `ScheduleSummary.GeneratedIdsAreSet` | internal/events/schedule_projection.go:36-46 | rows with generated, distinct ids have set, distinct expected times |
| `LiveEvents.SamplesAre` | internal/live/priority.go:47-56 | the samples are the eight listed types and everything below one of them |
| `LiveEvents.AlarmsAre` | internal/live/priority.go:31-43 | the critical types are the eleven listed |
| `LiveEvents.TierByName` | internal/live/priority.go:61-83 | an event may be dropped silently exactly when its type is a sample; it is critical exactly when its type is and it is not an alert of lower severity |
| `LiveHub.Hub.Subscribe` | internal/live/live_hub.go:296-306 | a new open channel that covers the log from now on; connects grows by one |
| `LiveHub.Hub.Unsubscribe` | internal/live/live_hub.go:308-319 | closes a subscribed channel once; a second call, or one after a cut, changes nothing |
| `LiveHub.Hub.Publish` | internal/live/live_hub.go:321-373 | each subscriber is offered the event once; one with 256 events waiting loses a sample, which is counted, and is cut by any other event; every client keeps an exact stretch of the log |
| `LiveHub.Hub.PublishSummary` | internal/live/live_hub.go:380-395 | only subscribers of the summary get it, nobody is cut, nothing counts as published |
| `LiveHub.Hub.Consume` | internal/handlers/live_handler.go:234-237 | the oldest buffered event moves to what the client has read |
| `LiveHub.ConnectedClientMissesNothing` | internal/live/live_hub.go:321-373 | read plus buffered, samples and summaries aside, are in order exactly the matching facts published since subscribing; the buffer is within its capacity |
| `LiveHub.EveryFactReachesTheClient` | internal/live/live_hub.go:321-373 | event by event: a matching one published since subscribing that is neither a sample nor the summary has been read or is buffered |
| `LiveHub.ClosedClientHasAPrefix` | internal/live/live_hub.go:362-371 | a client that left or was cut has exactly the matching facts up to that moment |
| `Coalesce.Coalescer.ShouldCoalesce` | internal/live/priority.go:109-128 | with a clock that does not go back, yes exactly when the type is not critical and a call with this type and subject was let through less than a quarter of a second before |
| `Coalesce.Coalescer.Prune` | internal/live/priority.go:144-154 | only entries at least a window old are forgotten |
| `Coalesce.SuppressedHasAFreshOne` | internal/live/priority.go:109-128 | a suppressed call is not critical and has an admitted one with its key less than a window before |
| `Coalesce.SuppressedExactly` | internal/live/priority.go:109-128 | a call is suppressed if and only if it is not critical and such a call came before |
| `Coalesce.AdmittedAreApart` | internal/live/priority.go:109-128 | admitted calls with one key are at least a window apart |
| `Coalesce.KeyIsInjective` | internal/live/priority.go:114-114 | the key separates type and subject when types hold no bar |
| `Coalesce.KeyIsAmbiguousWithABar` | internal/live/priority.go:114-114 | with a bar in a type two resources share a key |
| `Coalesce.PublishCoalesced` | internal/live/live_hub.go:321-333 | a suppressed event reaches nobody, any other is published, critical ones always |
| `HandOff.StepKeeps` | internal/handlers/live_handler.go:142-252 | commits, publishes, subscribe, replay query, replay writes and draining keep the invariant in any interleaving |
| `HandOff.NoGap` | internal/handlers/live_handler.go:142-252 | after the replay query, on a connection neither cut nor resynced, every published matching visible fact after the resume point is written, to be replayed, or in the channel |
| `HandOff.DrainedMeansDelivered` | internal/handlers/live_handler.go:224-251 | once the channel is drained all of them are written |
| `HandOff.NoDuplicate` | internal/handlers/live_handler.go:150-154 | no event is written twice, and none the client did not ask for or may not see |
| `HandOff.FactsArePublished` | internal/live/live_hub.go:32-34 | a committed event is published unless it is task.progress or attempt.heartbeat; every fact is |
| `HandOff.CutOnlyWhenFull` | internal/live/live_hub.go:362-371 | a connection is cut only by a matching event that is no sample and finds 256 events waiting |
| `HandOff.ReplaysUpTo500` | internal/handlers/live_handler.go:195-199 | up to 500 rows are replayed, and more than that resynchronise the client |
| `HandOff.EverythingOwedArrives` | internal/handlers/live_handler.go:195-251 | from every state after the replay query, serving an uncut connection alone brings everything owed so far to the client |
| `LiveClient.Client.IsNew` | dashboard/src/lib/liveClient.ts:61-67 | passes ids not among the last 1000 remembered, and remembers them |
| `LiveClient.Client.Receive` | dashboard/src/lib/liveClient.ts:113-115 | the cursor only grows, and only for events that pass |
| `LiveClient.StillSeen` | dashboard/src/lib/liveClient.ts:31-33 | an event at most 4 ids behind the cursor that passed before is still remembered, although the memory is capped |
| `LiveClient.AtMostOnce` | dashboard/src/lib/liveClient.ts:61-116 | over any drops and reconnects no event passes twice |
| `LiveClient.NothingLost` | dashboard/src/lib/liveClient.ts:84-116 | every published event after the watermark has passed, is on the connection, or lies after the resume point |
| `LiveClient.ExactlyOnce` | dashboard/src/lib/liveClient.ts:84-116 | when everything sent has been received, each such event has passed exactly once |
| `LiveClient.LostExact` | dashboard/src/lib/liveClient.ts:61-116 | in every run, timely or not, a published event passes in no continuation if and only if it has not passed, is not on the connection and lies at or before the resume point |
| `LiveClient.FiveBehindIsLost` | dashboard/src/lib/liveClient.ts:32-32 | every event after the watermark and at least 5 ids behind the cursor can be lost: a run after which it is published and passes in no continuation |
| `SseParser.Parser.FeedChunk` | dashboard/src/lib/sseParser.ts:18-49 | the imperative feed computes the function Feed of its state and the chunk |
| `SseParser.TwoChunks` | dashboard/src/lib/sseParser.ts:18-21 | a text fed in two chunks, wherever cut, gives the same messages and state as fed whole |
| `SseParser.ChunkIndependence` | dashboard/src/lib/sseParser.ts:9-21 | likewise for any number of chunks, also between CR and LF |
| `SseParser.FrameParses` | internal/handlers/live_handler.go:39-51 | a written frame is read as exactly one message; a trailing CR is the only thing lost |
| `SseParser.FrameRoundTrip` | internal/handlers/live_handler.go:39-51 | a frame without line feeds comes back unchanged if and only if its type is not empty and neither part ends in CR |
| `SseParser.StreamRoundTrip` | dashboard/src/lib/sseParser.ts:18-49 | any list of frames in any chunks comes back with types and data in order, and ids where non-zero |
| `SseParser.PingIsSilent` | internal/handlers/live_handler.go:230-232 | a keep-alive comment yields nothing and changes nothing |
| `SseParser.LineByName` | dashboard/src/lib/sseParser.ts:18-49 | what a line named data, event or id does, and that any other does nothing |
| `SseParser.DataInLines` | dashboard/src/lib/sseParser.ts:18-49 | data in two lines is one text with a line feed between them |
| `SseParser.WrittenText` | internal/handlers/live_handler.go:39-51 | the text of a frame |
| `SqlConditions.LikeIsPrefix` | internal/live/subscription.go:173-177 | LIKE with a literal text and a final % is a prefix test |
| `Scopes.ParseScopeExact` | internal/live/subscription.go:60-88 | a text parses to a scope if and only if the scope is well-formed and prints as the trimmed text |
| `Scopes.ScopeTexts` | internal/live/subscription.go:60-88 | each of the thirteen scopes in the text a client writes is read back, with ids of at most 200 bytes |
| `Scopes.LongIdsAreRefused` | internal/live/subscription.go:76-82 | a longer id is refused |
| `Scopes.TrimExact` | internal/live/subscription.go:68-70 | trimming takes all white space off both ends and nothing else |
| `Scopes.ParseScopes` | internal/live/subscription.go:91-109 | the distinct well-formed scopes named; refused exactly when a text is none or there are more than the limit |
| `Scopes.ScopesSelect` | internal/live/subscription.go:124-163 | which event types and subjects each scope selects, by name |
| `Scopes.ScopeSqlIsMatches` | internal/live/subscription.go:147-185 | a scope's condition selects exactly the stored rows it matches in memory |
| `Scopes.ChainNeedsAnId` | internal/live/subscription.go:151-170 | a chain scope without an id would select rows it does not match |
| `Scopes.ReplaySql` | internal/live/subscription.go:203-257 | the subscription's condition selects exactly the stored rows its filter accepts; there is none exactly when only summaries are subscribed |
| `Scopes.RequiredScopeIsClaimed` | internal/live/live_scopes.go:23-30 | the required scope is that of the one rule that matches with no earlier match |
| `Scopes.NeededToSee` | internal/live/live_scopes.go:10-30 | the permission each family of event types needs, by name |
| `Scopes.SeenByName` | internal/live/live_scopes.go:10-52 | an event is seen exactly unless the caller lacks that permission |
| `Scopes.HiddenEventSql` | internal/live/live_scopes.go:36-52 | for every rule list and caller it selects exactly the types whose first matching rule names a scope the caller lacks |
| `PiiOverlap.ResolveOverlaps` | internal/pii/pii_overlap.go:23-53 | the nested loops compute the function Resolved |
| `PiiOverlap.WinsIsStrict` | internal/pii/pii_overlap.go:7-21 | winsOver is irreflexive and transitive |
| `PiiOverlap.ConflictMeans` | internal/pii/pii_overlap.go:3-39 | findings conflict exactly when their spans share a position and their paths do not tell them apart |
| `PiiOverlap.StrongerIsKept` | internal/pii/pii_overlap.go:7-50 | of two findings that conflict the later is kept exactly when it has higher priority, then confidence, then length, then the earlier detector id |
| `PiiOverlap.KeptIsStrongest` | internal/pii/pii_overlap.go:7-50 | where conflict is transitive, nothing that conflicts with a kept finding is stronger, in whatever order they came |
| `PiiOverlap.ResolvedRepresents` | internal/pii/pii_overlap.go:23-53 | when conflict is transitive, kept findings come from the input, do not conflict, cover every finding, and none is beaten by one it conflicts with |
| `PiiOverlap.OnePerClass` | internal/pii/pii_overlap.go:23-53 | no finding is spoken for by two kept ones |
| `PiiOverlap.ContestApartExact` | internal/pii/pii_overlap.go:29-50 | one candidate leaves findings that do not conflict if and only if, when it displaces one, it conflicts with no other and those are apart, and otherwise the kept ones are apart |
| `PiiOverlap.ApartExactly` | internal/pii/pii_overlap.go:23-53 | kept findings are apart throughout the run if and only if no candidate bridges |
| `PiiOverlap.TransitiveNeverBridges` | internal/pii/pii_overlap.go:23-53 | where conflict is transitive nothing bridges |
| `PiiOverlap.KeptAreDisjoint` | internal/pii/pii_overlap.go:3-5 | kept spans within one field path are disjoint when nothing bridges |
| `PiiOverlap.ResolvedKeepsApart` | internal/pii/pii_overlap.go:23-53 | findings that do not conflict are all kept, in order |
| `PiiOverlap.BridgeLeavesAnOverlap` | internal/pii/pii_overlap.go:42-49 | any finding that beats the first of two apart findings and conflicts with both is kept together with the second, which it overlaps |
| `PiiOverlap.MendedBridge` | internal/pii/pii_overlap.go:42-49 | a fourth finding that displaces the bridge alone leaves findings apart, although those kept before it overlapped |
| `PiiSplice.ApplyTransformations` | internal/pii/pii_transformation.go:11-21 | on any spans: the array is sorted by descending start, and the result is the splices in that order, or a panic where a slice is out of range |
| `PiiSplice.PanicExact` | internal/pii/pii_transformation.go:16-18 | spans in any order and however they overlap are spliced without a panic if and only if each ends within the text as those before it leave it, and then the length is the sum of the changes |
| `PiiSplice.LongEnoughFits` | internal/pii/pii_transformation.go:16-18 | spans in bounds never panic if no replacement is shorter than what it hides |
| `PiiSplice.SplicedIsRendered` | internal/pii/pii_transformation.go:11-21 | spans in bounds and apart, empty ones included, given in any order, are each replaced once and every gap is kept: the left-to-right rendering, without a panic |
| `PiiSplice.OneSplice` | internal/pii/pii_transformation.go:16-18 | one splice before all later spans is the rendering with that span added |
| `PiiPath.PathRoundTrip` | internal/pii/pii_fieldpath_walker.go:62-95 | a decoder undoes the path text but for empty keys at its start |
| `PiiPath.PathsEqualExactly` | internal/pii/pii_fieldpath_walker.go:62-95 | two leaves have the same path text if and only if they differ only in empty keys at the start |
| `PiiPath.EmptyKeyCollides` | internal/pii/pii_fieldpath_walker.go:88-95 | two different leaves of one document with one path text |
| `PiiPath.PlainPath` | internal/pii/pii_fieldpath_walker.go:62-95 | how keys and positions stand in a path |
| `PiiPath.EscapedKey` | internal/pii/pii_fieldpath_walker.go:88-95 | a dot, bracket or backslash in a key is preceded by a backslash, anything else is as it was |
| `PiiJson.RewriteString` | internal/pii/pii_fieldpath_caretaker.go:124-158 | for every finding list: marks exactly the findings whose path and text fit, and returns the string, its normalised text with the kept ones spliced in, or a panic |
| `PiiJson.RewriteNode` | internal/pii/pii_fieldpath_caretaker.go:75-102 | for every finding list: the whole tree rewritten, whether anything changed, and which findings applied somewhere in it; a panic exactly when a leaf panics |
| `PiiJson.ApplyFindingsChecked` | internal/pii/pii_fieldpath_caretaker.go:36-119 | for every payload and finding list: refused exactly when not JSON, a finding fits no string, or encoding fails; a panic exactly when a leaf panics; identical payload when nothing is to rewrite; the encoded rewritten tree otherwise |
| `PiiJsonTheorems.ShapeIsKept` | internal/pii/pii_fieldpath_caretaker.go:75-102 | objects, keys, arrays, numbers and literals are kept |
| `PiiJsonTheorems.UnchangedIsTheSame` | internal/pii/pii_fieldpath_caretaker.go:110-112 | nothing to rewrite means the same document |
| `PiiJsonTheorems.LeafIsRewritten` | internal/pii/pii_fieldpath_caretaker.go:75-102 | every string leaf comes out, in its place, as its own findings say and untouched by those of other leaves |
| `PiiJsonTheorems.LeafWithoutFindings` | internal/pii/pii_fieldpath_caretaker.go:154-156 | a leaf without rewriting findings is untouched, not even normalised |
| `PiiJsonTheorems.LeafIsRendered` | internal/pii/pii_fieldpath_caretaker.go:137-157 | a leaf whose rewriting kept findings do not overlap is its normalised text with each of them replaced and every gap kept |
| `PiiJsonTheorems.UnbridgedLeafIsApart` | internal/pii/pii_fieldpath_caretaker.go:137-157 | where no finding of the leaf bridges, its rewriting kept findings do not overlap, so it does not panic either |
| `PiiJsonTheorems.LeafPanicExact` | internal/pii/pii_fieldpath_caretaker.go:137-157 | for every finding list, a leaf is rewritten without a panic if and only if each of its edits, from the back, ends within the text as those before it leave it |
| `PiiJsonTheorems.PanicsExactly` | internal/pii/pii_fieldpath_caretaker.go:75-102 | a document panics if and only if that fails in the leaf some steps lead to |
| `PiiJsonTheorems.LongEnoughNeverPanics` | internal/pii/pii_fieldpath_caretaker.go:75-102 | no document panics if no replacement is shorter than what it hides, whatever overlaps |
| `PiiJsonTheorems.LeafWithApartFindings` | internal/pii/pii_fieldpath_caretaker.go:137-157 | a leaf whose findings do not overlap is its normalised text with each rewriting finding replaced and every gap kept |
| `PiiRedaction.LeafShows` | internal/pii/pii_fieldpath_caretaker.go:124-158 | where a leaf's findings do not overlap, its output is its normalised text with every gap kept and every finding shown: redacted and blocked ones as the name of their kind, masked ones masked, observed ones as they were |
| `PiiRedaction.DocumentShows` | internal/pii/pii_fieldpath_caretaker.go:75-158 | the same for each leaf in its place in the document |
| `PiiRedaction.LeafIsArranged` | internal/pii/pii_fieldpath_caretaker.go:124-158 | findings that do not overlap can be put in order from left to right |
| `PiiRedaction.RedactedIsHidden` | internal/pii/pii_fieldpath_caretaker.go:137-158 | two leaves that differ only in what is redacted or blocked come out the same |
| `PiiJsonTheorems.FoundMeansApplied` | internal/pii/pii_fieldpath_walker.go:62-76 | a finding made in a leaf by the walk always applies |
| `PiiJsonTheorems.SuccessMeansAllFound` | internal/pii/pii_fieldpath_caretaker.go:36-45 | all findings apply if and only if each one's text sits at its offsets in a leaf with its path |
| `PiiJsonTheorems.OneLeafPerFinding` | internal/pii/pii_fieldpath_caretaker.go:121-124 | a finding fits one leaf only, unless an empty key starts a path |
| `PiiBridges.ResolvedOnce` | internal/worker/post_execution_scan.go:106-106 | five findings of one text of which the callers pass on three, the last bridging the other two |
| `PiiBridges.ResolvedTwice` | internal/pii/pii_fieldpath_caretaker.go:137-157 | resolved again inside the rewrite, two of those are kept and overlap |
| `PiiBridges.ReplacementIsSplit` | internal/pii/pii_transformation.go:11-21 | the text that comes out of it: one replacement is spliced into the other |
| `PiiBridges.ShortMaskPanics` | internal/pii/pii_transformation.go:16-18 | with masks shorter than what they hide, the same shape of findings slices out of range |
| `Luhn.IsValidLuhn` | internal/pii/pii_tools.go:299-332 | on any text, the backward loop over the bytes decides acceptance of what is left of it: not empty, only Unicode digits, byte sum divisible by ten |
| `Luhn.AsciiIsDecided` | internal/pii/string_masking.go:28-43 | on an ASCII text, separators and all, acceptance is validity of the digits that are left |
| `Luhn.StripKeeps` | internal/pii/string_masking.go:28-43 | stripping an ASCII text leaves its letters and digits in order |
| `Luhn.OneWrongDigit` | internal/pii/pii_tools.go:299-332 | changing one digit of a valid number makes it invalid |
| `Luhn.NeighboursSwapped` | internal/pii/pii_tools.go:299-332 | swapping two neighbours of a valid number is detected if and only if they differ and are not 0 and 9 |
| `Luhn.OneCheckDigit` | internal/pii/pii_tools.go:299-332 | every text of digits is completed to a valid number by exactly one check digit |
| `Luhn.DoublingStartsBeforeTheLast` | internal/pii/pii_tools.go:316-329 | 18 is valid and 81 is not |

## Left out

- Postgres, GORM, Redis, HTTP and the clock: replaced by maps, sequences, sets and parameters. Times come in as arguments.
- Failed database writes, and the early return for a success that was not persisted, in internal/worker/worker.go:175-178: outside the hypotheses that accepted writes are not lost.
- Runs that are Blocked at creation, malformed stream messages, consumer-group repair and graceful shutdown.
- UpdateProjection and UpdateScheduleProjection as concurrent writers: the projection theorems are about the reducers and the rebuild, and claim nothing about Task.Status agreeing with the projected status.
- rebuildScheduleMonitoring: its event replay uses the reducer and order proved here; the backfill from tasks is not modelled.
- RefreshRunProjectionCounts and the source tables of the counts: the counts are given per run.
- ToggleSchedule: it saves the whole schedule row, next_run_at included, so it is not one of the actors of the claim theorem.
- ScheduleClaim.EachOccurrenceOnce: does not cover schedules with an interval under one second, for which ids of one second can repeat; 64-bit overflow of time.Duration is not modelled.
- OccurrenceLedger.LatenessExact: lateness is kept in nanoseconds instead of floating-point seconds.
- RunReducer.StampExact: times before Go's zero time are not modelled.
- Rebuild.ProjectionStore.RebuildRunProjections: assumes that a job id names one task (they are ULIDs), that the prefix holds no LIKE wildcard and that nothing else writes during the pass.
- HandOff.NoGap: does not cover a connection without a resume point, a failed replay query, or the ?subject= narrowing, which the replay query does not apply.
- LiveClient.ExactlyOnce: speaks of the id check; the stale guard behind it, back-off, watchdog and connection states are not modelled.
- The connection limiter, health verdicts, alert rules, notifications, retention, pagination, the summary notifier and delivery-lag statistics: they would only add easier members.
- Regular-expression detection, Unicode NFC, JSON decoding and encoding, masking strategies, AES-GCM, HMAC and vaulting: findings are given, and NFC, codec and mask are function parameters.
- PiiJson.ApplyFindingsChecked: objects are sequences of members, so Go's map iteration order is not modelled.
- PiiSplice.ApplyTransformations: spans with equal starts are spliced in the order of a stable sort, which sort.Slice gives only up to twelve elements; spans that are apart have different starts, so this matters only where spans collide.
- Luhn.OneWrongDigit: about numbers of ASCII digits, which are all that the built-in card pattern matches; of other Unicode digits the program sums the bytes of their encoding.
- The dashboard's pages, stores, router and formatting, configuration, authentication and logging.
