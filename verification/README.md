# A verified model of the durable agent host

This Dafny project models the transactional state machines of `tomo_core`, and proves what they keep over every
sequence of calls: the cron ledger with its scheduler and send protocol, the calendar search and cron expressions,
the chat generations of the messaging gateway, the peer exchange, the sandbox event stream, and the personal-data
store with its checkpoints.

Every table is a map. Every public store call is one transaction, written as a function from the tables before to
the tables after (or to `Aborted`, when the source raises and rolls back). Clocks, fresh tokens, query row orders,
connector results and what other processes do in between are inputs, so every statement over a history is a
statement over every interleaving. Where the source updates objects or runs loops, a class with the same fields and
loops (`CronStore.Store`, `CronService.Scheduler`, `GenerationStore.OnboardingStore`, `PeerStore.Store`,
`PeerExchange.Exchange`, `SandboxParser.StreamParser`, `PersonalStore.Repository`) is proved to do exactly what those
functions say. What those functions mean is said again without them, in terms of stored columns, dates and text.

How the files hang together:

- **Schedule**: `Calendar` (day numbers and dates), `CronExpression` (the field parser and a round trip), `CronSyntax`
  (every form of a field), `CronSchedule` (next occurrence and catch-up), `CronWallClock` (what clocks show at an
  occurrence), `CronSearch` (when the five-year search succeeds).
- **Cron ledger**: `CronLedger` (tables and calls), `CronInvariant` and `CronTransitions` (what every call keeps),
  `CronHistory` (whole histories, fences that never fire), `CronGrowth` (nothing is created twice), `CronAccounting`
  (success caps), `CronDues` (occurrences between edits), `CronRedaction` and `CronEarlyErasure` (when content is
  erased, and a history that erases too early), `CronStuck` (runs that cannot finish), `CronBlocked` (when a claim
  raises), `CronErased` (what becomes of a job erased under its open run), `CronSends` (the send protocol), `CronOwed`
  (what a job owes and which run a claim hands out), `CronEffects`, `CronSendEffects` and `CronJobEffects` (what each call
  accepts and the rows it leaves), `CronStore` and `CronService` (the classes).
- **Generations**: `Generations`, `GenerationInvariant`, `GenerationHistory`, `GenerationMinimum` (which later
  generations reach a requested revision), `GenerationEffects` (calls row by row), `GenerationQuiet` (how long a chat
  stays quiet), `GenerationStore`, and `AutomationLane` (one scheduled run through a chat).
- **Peer exchange**: `PeerPolicy`, `PeerLedger`, `PeerInvariant`, `PeerHistory`, `PeerGuarantees`, `PeerEffects` and
  `PeerRelationEffects` (calls row by row), `PeerStore`, `PeerExchange`.
- **Sandbox stream**: `SandboxFrames`, `SandboxResult`, `SandboxStream`, `SandboxEffects` (lines and results field by
  field), `SandboxParser`.
- **Personal data**: `Checkpoint`, `PersonalData`, `PersonalPurge`, `PersonalGovernance`, `PersonalLoopholes` and
  `PersonalExamples` (how disabled content is shown again), `PersonalEffects`, `PersonalSaveEffects` and
  `PersonalPurgeEffects` (calls row by row), `SessionFence`, `PersonalStore`.

`dafny verify dfyconfig.toml` checks the whole project.

## What turned out not to hold

Each of these is a lemma with a concrete input, in most cases a whole history from empty tables, next to the exact
condition under which the code does what one would expect.

- The five-year search does not cover every expression, although the comment at
  `tomo_core/src/tomo_core/cron_schedule.py:90` says so: `CronSearch.FiveYearsAreNotEnough`; exactly when it does:
  `CronSearch.UtcSearchExactly`.
- Such an expression blocks every other job. Catching up searches past each occurrence before it returns one, so for a
  job of every 29 February created in this century the claim raises and rolls back from 29 February 2096 on, and no job
  listed behind it is ever claimed: `CronBlocked.LeapDayJobBlocksOthers`. An interval job without a start does the same
  as soon as it has run or been paused: `CronBlocked.UnanchoredJobBlocksOthers`. Exactly when a claim raises:
  `CronBlocked.ClaimAbortsExactly` with `CronBlocked.OwedRaisesExactly`.
- A manual run requested in such a gap never finishes: every completion raises, the third failure raises too, and the
  run is executed again after each expired lease (`CronStuck.ManualRunInAGapNeverFinishes`,
  `CronStuck.LeapDayManualRunNeverFinishes`); exactly when completion raises: `CronStuck.CompletesExactly`. A run of an
  occurrence is never in this state: `CronStuck.OccurrenceRunsAreNeverStuck`.
- An edited job may owe an occurrence again and then raise on the unique key: `CronDues.EditMayRepeatAnOccurrence`;
  exactly when: `CronDues.OccurrencesRepeatOnlyAfterEdits`.
- Lowering a success cap to what was already reached leaves the job above it: `CronAccounting.CapsHoldUnlessLowered`.
- Recovery may erase the content of an ended job under its open lifecycle run, when a delivery became unknown at the
  very instant of the recovery: `CronEarlyErasure.RecoveryMayEraseALiveJob`; exactly when:
  `CronRedaction.ErasureStaysExact`.
- Once that run waits again it is never claimed: every claim that comes to it raises, for all jobs, until its job is
  deleted (`CronErased.ErasedRunsNeverStart`, `CronEarlyErasure.ErasedRunBlocksOthers`). If it completes instead, its
  deliveries have no destination, and every delivery claim that comes to one raises
  (`CronEarlyErasure.UnaddressedDeliveryBlocksOthers`); exactly when: `CronErased.ClaimRaisesExactlyWhenCreatedErased`.
  Neither happens while erasure is exact: `CronErased.ExactLedgersKeepContent`, `CronErased.DeliveryClaimLeases`.
- A terminal generation failure ignores the requested minimum revision:
  `GenerationMinimum.TerminalFailureIgnoresMinimum`, `SessionFence.TerminalFailureMayStayFencedOut`, each with the exact
  condition.
- A crash during a scrub may lose the newest snapshot: `Checkpoint.ScrubMayLoseTheNewest`; exactly when:
  `Checkpoint.ScrubCrash`, and after any history `Checkpoint.RecoveryReturnsExactly`. A crash during the very
  first checkpoint leaves recovery raising: `Checkpoint.OrdinaryCrashLosesNothing`.
- Content its owner disabled can be shown again by archiving an older staged row of it, or by purging what replaced an
  older row: `PersonalExamples.ArchivingMayShowDisabledContent`, `PersonalExamples.PurgeMayShowDisabledContent`;
  exactly when, over all calls: `PersonalLoopholes.DisabledContentShowsExactly`.

## Model

| member | source | states |
|---|---|---|
| CronExpression.FieldValues | tomo_core/src/tomo_core/cron_schedule.py:14-36 | the part-by-part loop returns the set of a field, or raises for a bad part |
| CronExpression.FieldMeaning | tomo_core/src/tomo_core/cron_schedule.py:14-36 | a parsed field holds exactly the values some part permits, and parsing raises exactly when some part is bad |
| CronExpression.FieldRoundTrip | tomo_core/src/tomo_core/cron_schedule.py:14-36 | writing any nonempty list of in-range values and parsing it back yields exactly those values |
| CronExpression.Parse | tomo_core/src/tomo_core/cron_schedule.py:50-56 | five whitespace-separated fields become valid cron fields with the two wildcard flags; anything else raises |
| CronSyntax.PartMeans | tomo_core/src/tomo_core/cron_schedule.py:17-35 | `*`, `a` and `a-b`, each with or without `/n`: refused exactly for a zero step or bounds out of order or range; otherwise the first number and every further one a whole number of steps on, up to the last |
| CronSyntax.OnlyTheseForms | tomo_core/src/tomo_core/cron_schedule.py:17-35 | every part that is accepted has one of these forms |
| CronSyntax.NumeralReads | tomo_core/src/tomo_core/cron_schedule.py:19-30 | a numeral with leading zeros reads as its number |
| CronSyntax.WordsAreRead | tomo_core/src/tomo_core/cron_schedule.py:52-54 | words are read however they are spaced |
| CronSchedule.NextIsLeast | tomo_core/src/tomo_core/cron_schedule.py:75-95 | the next occurrence is the least one strictly later, and a cron search raises only when its whole window holds none |
| CronWallClock.OccursExactly | tomo_core/src/tomo_core/cron_schedule.py:59-72 | a cron schedule occurs at exactly the whole minutes that are not repeated and whose local date and time are listed: an asterisk in either day field restricts nothing, two restricted day fields are alternatives |
| CronWallClock.NextShowsListed | tomo_core/src/tomo_core/cron_schedule.py:89-95 | in any zone the search returns the first such minute, and raises exactly when there is none in its window |
| CronWallClock.NextUtcOccurrence | tomo_core/src/tomo_core/cron_schedule.py:59-95 | in UTC it returns the first listed minute of a listed date |
| CronWallClock.DaysFollowTheCalendar | tomo_core/src/tomo_core/cron_schedule.py:62-65 | day numbers follow the calendar from 1 January of year 1, month lengths and leap days included |
| CronWallClock.FoldIsRepeat | tomo_core/src/tomo_core/cron_schedule.py:63-72 | an instant is marked as repeated exactly when clocks have shown its reading before |
| CronWallClock.ReadingsOccurOnce | tomo_core/src/tomo_core/cron_schedule.py:63-72 | however often clocks are set back, no reading occurs twice, and a listed minute occurs the first time clocks show it |
| CronWallClock.NextInterval | tomo_core/src/tomo_core/cron_schedule.py:83-88 | an interval comes next a whole number of periods after its start, the period before being over |
| CronSchedule.FindNext | tomo_core/src/tomo_core/cron_schedule.py:89-95 | the minute-by-minute loop computes that occurrence |
| CronSchedule.CatchUpIsLatest | tomo_core/src/tomo_core/cron_schedule.py:98-121 | catching up returns the greatest occurrence in (since, now], or none |
| CronWallClock.CatchUpInUtc | tomo_core/src/tomo_core/cron_schedule.py:98-121 | in UTC catching up returns the last listed minute of the range, or none |
| CronWallClock.CatchUpInterval | tomo_core/src/tomo_core/cron_schedule.py:104-115 | for an interval it returns the last whole period of the range, or none |
| CronSchedule.ClosedFormEqualsIteration | tomo_core/src/tomo_core/cron_schedule.py:104-121 | the interval closed form equals iterating the next occurrence |
| CronSchedule.CatchUpSplits | tomo_core/src/tomo_core/cron_schedule.py:98-121 | splitting a catch-up range at any midpoint does not change the answer |
| CronSchedule.CatchUpRaisesExactly | tomo_core/src/tomo_core/cron_schedule.py:98-121 | catching up raises exactly for reversed bounds, an interval without anchor, or a search that finds nothing on the way |
| CronSchedule.CatchUpByLoop | tomo_core/src/tomo_core/cron_schedule.py:116-121 | the catch-up loop computes that answer |
| CronSearch.UnfailingSucceeds | tomo_core/src/tomo_core/cron_schedule.py:59-95 | with a restricted weekday, a wildcard day, or a listed day that exists in a listed month, the UTC search succeeds from every start |
| CronSearch.UtcSearchExactly | tomo_core/src/tomo_core/cron_schedule.py:89-95 | the UTC search succeeds exactly for those expressions, or when a listed leap-day minute lies in its window |
| CronSearch.LeapDaySearchFailsOnlyAtCenturies | tomo_core/src/tomo_core/cron_schedule.py:89-95 | with 29 February listed it fails only across a century year that is not a leap year |
| CronSearch.FiveYearsAreNotEnough | tomo_core/src/tomo_core/cron_schedule.py:90-95 | a valid expression whose occurrence on 2096-02-29 has no next one in the window |
| CronSearch.LeapMidnightIsFoundBefore | tomo_core/src/tomo_core/cron_schedule.py:89-95 | every search for 29 February from an instant of this century before the one of 2096 succeeds |
| CronHistory.ApplyKeeps | tomo_core/src/tomo_core/cron_store.py:49-416 | every store call keeps the ledger invariant |
| CronHistory.Play | tomo_core/src/tomo_core/cron_store.py:49-416 | the invariant holds after every history of calls |
| CronHistory.ReachableLedgersAreSound | tomo_core/src/tomo_core/cron_store.py:396-453 | in every reachable ledger a job has at most one open run, unfinished work carries the job's current revision and permitted status, and successes equal the successful runs |
| CronTransitions.ClaimDueRunKeeps | tomo_core/src/tomo_core/cron_store.py:162-210 | claiming keeps the invariant through both loops |
| CronTransitions.BumpKeeps | tomo_core/src/tomo_core/cron_store.py:396-404 | a revision bump with its invalidation leaves nothing open under an old revision |
| CronTransitions.RunFinishedKeeps | tomo_core/src/tomo_core/cron_store.py:227-272 | finishing a run hands over to its deliveries without breaking any fence |
| CronHistory.ClaimNeverInvalidates | tomo_core/src/tomo_core/cron_store.py:166-180 | the claim loop leases the first row it is given; it never has to invalidate one |
| CronHistory.RunFenceNeverFires | tomo_core/src/tomo_core/cron_store.py:212-233 | a worker holding a lease always passes the revision and status fence |
| CronHistory.DeliveryClaimNeverSuppresses | tomo_core/src/tomo_core/cron_store.py:287-300 | the delivery claim leases the first row it is given and changes nothing else, or raises, exactly when that row has no destination |
| CronHistory.AdmissionFenceNeverFires | tomo_core/src/tomo_core/cron_store.py:322-335 | admission depends only on the lease |
| CronHistory.CompletionCreatesFrames | tomo_core/src/tomo_core/cron_store.py:236-242 | completing adds exactly the given frames as deliveries, each with its own text, waiting from now on, never tried, for the revision of the run and to the destination of the job, gone exactly when its content is; all others stay |
| CronEffects.CompletionExactly | tomo_core/src/tomo_core/cron_store.py:227-250 | a completion row by row: what is refused, what raises, the frames delivered, the success counted for a succeeded outcome only, and the job ended exactly by its last run |
| CronEffects.FailureExactly | tomo_core/src/tomo_core/cron_store.py:252-272 | a failure row by row: two retries after one and two seconds, then one notice in place of output, and the job ended exactly when it is a single instant or this was its last occurrence before the end |
| CronEffects.DeliveriesKeepTheirText | tomo_core/src/tomo_core/cron_store.py:241-300 | through every later history a delivery that may still be sent carries the text of its frame, and goes to the destination the job had |
| CronEffects.LeaseCallsExactly | tomo_core/src/tomo_core/cron_store.py:212-285 | who may renew, begin and put off a run, and what that changes |
| CronSendEffects.EligibleExactly | tomo_core/src/tomo_core/cron_store.py:291 | which deliveries may be claimed |
| CronSendEffects.DeliveryClaimExactly | tomo_core/src/tomo_core/cron_store.py:287-300 | a delivery claim row by row |
| CronSendEffects.StaleDeliveriesAreSuppressed | tomo_core/src/tomo_core/cron_store.py:290-297 | which deliveries the claim loop would suppress |
| CronSendEffects.AdmissionExactly | tomo_core/src/tomo_core/cron_store.py:322-335 | the fence before a send row by row |
| CronSendEffects.SettlingExactly | tomo_core/src/tomo_core/cron_store.py:461-470 | what a report on a send settles, holds back and erases |
| CronSendEffects.RejectionExactly | tomo_core/src/tomo_core/cron_store.py:340-350 | a rejected send is retried after 1, 2, 4 and 8 seconds, and given up after the fifth |
| CronSendEffects.ErasureExactly | tomo_core/src/tomo_core/cron_store.py:406-416 | when a job is erased, and what that takes from its row, its runs and their deliveries |
| CronSendEffects.RecoveryExactly | tomo_core/src/tomo_core/cron_store.py:365-375 | recovery row by row: leases given back, sends of unknown outcome, deliveries held back, jobs erased |
| CronJobEffects.UpdateExactly | tomo_core/src/tomo_core/cron_store.py:74-84 | an edit replaces the job under a new revision and withdraws all its unfinished work |
| CronJobEffects.ChangeExactly | tomo_core/src/tomo_core/cron_store.py:382-394 | pausing, resuming and cancelling row by row; cancelling erases at once |
| CronJobEffects.DeletionExactly | tomo_core/src/tomo_core/cron_store.py:95-105 | deleting cancels in any state and erases at once |
| CronJobEffects.CreationExactly | tomo_core/src/tomo_core/cron_store.py:49-63 | what a new job starts with |
| CronJobEffects.ManualRunExactly | tomo_core/src/tomo_core/cron_store.py:107-112 | which job gets a run by hand |
| CronGrowth.FramesAreCreatedOnce | tomo_core/src/tomo_core/cron_store.py:227-272 | a finished run keeps its outcome and exactly its deliveries through every later history |
| CronGrowth.TerminalJobsGetNoRuns | tomo_core/src/tomo_core/cron_store.py:107-210 | an ended or cancelled job never gets another run |
| CronGrowth.SettledDeliveriesStaySettled | tomo_core/src/tomo_core/cron_store.py:287-375 | a settled delivery is never sent, retried or suppressed again |
| CronAccounting.CapsHoldUnlessLowered | tomo_core/src/tomo_core/cron_store.py:74-84 | success caps hold across a call exactly unless it is an edit to a cap already reached |
| CronAccounting.CapIsNeverExceeded | tomo_core/src/tomo_core/cron_store.py:244-249 | without such edits no job ever has more successful runs than its cap |
| CronDues.OwedIsNew | tomo_core/src/tomo_core/cron_store.py:186-201 | an owed occurrence is later than the last recorded one, pauses and ends included |
| CronOwed.OwedMeans | tomo_core/src/tomo_core/cron_store.py:184-200 | what an idle job owes: past its end its last occurrence before the end or one farewell; after a pause the latest one since; otherwise the latest since the last run |
| CronOwed.LastBeforeMeans | tomo_core/src/tomo_core/cron_store.py:244-246 | a run is the last exactly when no occurrence may come between it and the end |
| CronOwed.WillEndMeans | tomo_core/src/tomo_core/cron_store.py:439-445 | what a claim says about the end of its job, and when it cannot |
| CronOwed.ClaimHandsOut | tomo_core/src/tomo_core/cron_store.py:162-210 | a claim hands out the first waiting run, or else a new one of the first idle job that owes one, or none exactly when there is neither; jobs it passes forget that they were paused |
| CronOwed.StaleRunsAreInvalidated | tomo_core/src/tomo_core/cron_store.py:167-171 | which waiting runs the claim loop would invalidate |
| CronOwed.BusyExactly | tomo_core/src/tomo_core/cron_store.py:447-453 | a job is busy while a run of it or one of their deliveries is unfinished |
| CronDues.PlayTimely | tomo_core/src/tomo_core/cron_store.py:181-201 | with a nondecreasing clock recorded instants stay consistent and the last occurrence never goes back between edits |
| CronDues.OccurrencesRunOnce | tomo_core/src/tomo_core/cron_store.py:422-438 | no occurrence of a job as last edited is ever run twice, by schedule or by catch-up |
| CronDues.OccurrencesRepeatOnlyAfterEdits | tomo_core/src/tomo_core/cron_store.py:422-438 | the key of an owed run is taken exactly when a run from before the last edit used it |
| CronDues.UneditedJobsNeverRepeat | tomo_core/src/tomo_core/cron_store.py:534 | a job that was never edited never hits the unique key |
| CronDues.EditMayRepeatAnOccurrence | tomo_core/src/tomo_core/cron_store.py:74-84 | a reachable ledger in which an edited job owes an old occurrence again and the claim raises |
| CronBlocked.OwedRaisesExactly | tomo_core/src/tomo_core/cron_schedule.py:98-121 | what a job owes cannot be computed exactly when the bounds are reversed, an interval that ran or was paused has no start, or a cron search on the way finds nothing |
| CronBlocked.ClaimAbortsExactly | tomo_core/src/tomo_core/cron_store.py:162-210 | the claim of a sound ledger raises exactly when the job of its first waiting run was erased, or that run is a manual one in a gap of a job with an end, or, with none waiting, when a job whose search fails, or one whose key is taken, is listed before any that owes a run |
| CronBlocked.LeapDayJobBlocksOthers | tomo_core/src/tomo_core/cron_store.py:181-201 | two jobs created in an empty ledger: a claim in this century or later raises at the leap-day job exactly from 2096-02-29 on, and the job behind it, which alone would be claimed, is not |
| CronBlocked.UnanchoredJobBlocksOthers | tomo_core/src/tomo_core/cron_store.py:181-201 | the same after pausing and resuming an interval job without a start |
| CronRedaction.ErasureStaysExact | tomo_core/src/tomo_core/cron_store.py:406-416 | a call keeps "erased exactly when terminal with no open work" exactly unless it creates a terminal job or erases under an open lifecycle run |
| CronRedaction.RecoverExact | tomo_core/src/tomo_core/cron_store.py:365-375 | recovery keeps it exactly unless an ended job with an open run has a delivery unknown at that instant |
| CronRedaction.ErasedExactlyWhenSettled | tomo_core/src/tomo_core/cron_store.py:406-416 | over such histories content is erased exactly when a terminal job has no active run |
| CronEarlyErasure.RecoveryMayEraseALiveJob | tomo_core/src/tomo_core/cron_store.py:373-374 | a history of twelve calls from an empty ledger after which erasure is exact, and recovering once more in the same instant erases an ended job under its open run |
| CronEarlyErasure.ErasedRunBlocksOthers | tomo_core/src/tomo_core/cron_store.py:166-180 | three calls later the lifecycle run of that job waits again, every claim raises from then on, and another job, which alone would be claimed, is not |
| CronEarlyErasure.UnaddressedDeliveryBlocksOthers | tomo_core/src/tomo_core/cron_store.py:287-300 | the lifecycle run of that job completes in time instead, and every delivery claim that comes to its delivery raises, whatever is listed behind it |
| CronErased.ErasedJobsAreTerminal | tomo_core/src/tomo_core/cron_store.py:406-416 | in every reachable ledger only ended or cancelled jobs are erased, so an open run of an erased job is the lifecycle run of an ended one |
| CronErased.ExactLedgersKeepContent | tomo_core/src/tomo_core/cron_store.py:166-180 | while content is erased exactly when it should be, no open run has lost its content |
| CronErased.ErasedRunsNeverStart | tomo_core/src/tomo_core/cron_store.py:166-180 | through every history the waiting run of an erased job is never claimed, until its job is deleted |
| CronErased.ClaimRaisesExactlyWhenCreatedErased | tomo_core/src/tomo_core/cron_store.py:242-300 | through every history the claim of a delivery raises exactly when its job had been erased before the delivery was created |
| CronErased.DeliveryClaimLeases | tomo_core/src/tomo_core/cron_store.py:287-300 | over histories that never erase too early the delivery claim always leases the first row it is given |
| CronErased.UnaddressedAreNeverSent | tomo_core/src/tomo_core/cron_service.py:77-110 | in every interleaving a delivery without a destination is never sent |
| CronStuck.CompletesExactly | tomo_core/src/tomo_core/cron_store.py:227-250 | completion commits exactly when the next occurrence can be found |
| CronStuck.NeverFinishes | tomo_core/src/tomo_core/cron_store.py:227-272 | a run whose job has no findable next occurrence never succeeds, never fails and never gets a delivery |
| CronGrowth.OccurrenceRunsContinue | tomo_core/src/tomo_core/cron_schedule.py:116-121 | in every reachable ledger the search past the occurrence of an open run has an answer, because the run only became owed once that search succeeded |
| CronStuck.OccurrenceRunsAreNeverStuck | tomo_core/src/tomo_core/cron_store.py:227-272 | so only a manual or a lifecycle run can ever be unable to finish |
| CronStuck.ManualRunInAGapNeverFinishes | tomo_core/src/tomo_core/cron_store.py:227-272 | a manual run requested while the search finds nothing never finishes and never gets a delivery, through every later history |
| CronStuck.LeapDayManualRunNeverFinishes | tomo_core/src/tomo_core/cron_store.py:227-272 | a history of two calls from an empty ledger that leads there |
| CronSends.NextSafe | tomo_core/src/tomo_core/cron_store.py:287-350 | every claim, admission, send, report, recovery and other call keeps the send protocol safe |
| CronSends.SendsAreSafe | tomo_core/src/tomo_core/cron_service.py:77-110 | in every interleaving a delivery is sent at most five times and every send but its last was rejected |
| CronSends.SendsGoOutInOrder | tomo_core/src/tomo_core/cron_store.py:291 | a delivery is only sent once every earlier one of its run is finished |
| CronSends.RecoverMoves | tomo_core/src/tomo_core/cron_store.py:365-375 | recovery only settles deliveries or puts them back to waiting |
| CronSends.ReportMoves | tomo_core/src/tomo_core/cron_store.py:340-350 | a report settles the delivery it holds, or lets it wait again only after a rejected send below the limit |
| CronSendEffects.MovesExactly | tomo_core/src/tomo_core/cron_service.py:86-109 | the moves of a worker: claim, admission, one call of the connector, and a report of exactly what it answered |
| CronStore.Store.ClaimRun | tomo_core/src/tomo_core/cron_store.py:162-210 | the two loops in place compute the claim transaction, and a raise, of the claim object built from an erased job included, rolls everything back |
| CronStore.Store.Complete | tomo_core/src/tomo_core/cron_store.py:227-250 | the frame loop and the row updates compute the completion transaction |
| CronStore.Store.Fail | tomo_core/src/tomo_core/cron_store.py:252-272 | the row updates compute the failure transaction |
| CronStore.Store.ClaimNext | tomo_core/src/tomo_core/cron_store.py:287-300 | the suppression loop computes the delivery claim, and a raise for a row without a destination rolls everything back |
| CronStore.Store.RecoverExpired | tomo_core/src/tomo_core/cron_store.py:365-375 | the pacing and erasing loops compute the recovery transaction |
| CronStore.Store.Change | tomo_core/src/tomo_core/cron_store.py:382-394 | pausing, resuming and cancelling compute their transaction |
| CronService.Scheduler.ProcessNext | tomo_core/src/tomo_core/cron_service.py:77-110 | one tick exactly: recovery, then a preferred execution, and unless that found a run or failed the next delivery or an execution; which moves it makes follows from what the store answers at each of them, and which kind the next tick prefers is said; others may move in between |
| CronService.Scheduler.Execute | tomo_core/src/tomo_core/cron_service.py:112-136 | an execution exactly: the run claimed is begun, and what is recorded of it follows from the executor's answer, the lease and whether the completion raises |
| CronService.Scheduler.SuppressFrame | tomo_core/src/tomo_core/cron_service.py:88-90 | after a refused admission the suppression changes nothing |
| CronService.OutputIsDeliverable | tomo_core/src/tomo_core/cron_service.py:160-174 | what an executor's answer is taken to mean, outcome by outcome, and that the ledger accepts what is accepted here |
| GenerationHistory.ApplyKeeps | tomo_core/src/tomo_core/onboarding_store.py:288-728 | every store call keeps the chat invariants |
| GenerationHistory.Play | tomo_core/src/tomo_core/onboarding_store.py:288-728 | they hold after every history of calls |
| GenerationHistory.OneActiveGeneration | tomo_core/src/tomo_core/onboarding_store.py:316-323 | a chat's pointer names exactly its active generation |
| GenerationHistory.RevisionsGrow | tomo_core/src/tomo_core/onboarding_store.py:378-465 | every new generation has a larger revision than all earlier ones of its chat |
| GenerationInvariant.ClaimNeverCollides | tomo_core/src/tomo_core/onboarding_store.py:428-446 | the repeat-attempt identifier is never used and no identifier is ever taken |
| GenerationInvariant.ReleasedKeeps | tomo_core/src/tomo_core/onboarding_store.py:603-728 | ending a generation, by completion, failure or recovery, keeps everything |
| GenerationInvariant.ArrivedKeeps | tomo_core/src/tomo_core/onboarding_store.py:288-374 | a message that supersedes the active generation keeps everything |
| GenerationHistory.CompletionClosesItsInputs | tomo_core/src/tomo_core/onboarding_store.py:603-624 | completing a generation closes exactly the messages it was given |
| GenerationHistory.AutomationClosesNothing | tomo_core/src/tomo_core/onboarding_store.py:603-624 | completing an automation generation closes no message |
| GenerationHistory.AnsweredAtMostOnce | tomo_core/src/tomo_core/onboarding_store.py:447-458 | a message is an input of at most one completed generation |
| GenerationHistory.MessagesAreConserved | tomo_core/src/tomo_core/onboarding_store.py:303-374 | a message waits in its chat's open burst, or was given to a generation that completed or terminally failed |
| GenerationHistory.ClaimHandsOverEverything | tomo_core/src/tomo_core/onboarding_store.py:415-465 | a claim hands over exactly all waiting messages of the chat |
| GenerationEffects.ClaimExactly | tomo_core/src/tomo_core/onboarding_store.py:399-495 | a claim starts a generation exactly when the chat has waiting messages, no active generation, and is quiet no longer |
| GenerationQuiet.AnswersWait | tomo_core/src/tomo_core/onboarding_store.py:331-371 | through every history after a message at t with debounce d, as long as no failure or recovery resets the quiet time, an answer starts only by a claim and not before the last message's arrival plus its debounce |
| GenerationQuiet.QuietFollowsMessages | tomo_core/src/tomo_core/onboarding_store.py:331-371 | without failures and recoveries a chat is quiet until the time its last new message set |
| GenerationEffects.ArrivalExactly | tomo_core/src/tomo_core/onboarding_store.py:288-375 | an update row by row: burst, revision, quiet time and the generation it supersedes |
| GenerationEffects.ReservationExactly | tomo_core/src/tomo_core/onboarding_store.py:378-397 | when an automation gets the chat, and under which revision |
| GenerationEffects.CompletionExactly | tomo_core/src/tomo_core/onboarding_store.py:603-624 | who completes, and the burst it closes |
| GenerationEffects.FailureExactly | tomo_core/src/tomo_core/onboarding_store.py:626-685 | when a failure is terminal, which revision and pause follow otherwise |
| GenerationEffects.RecoveryExactly | tomo_core/src/tomo_core/onboarding_store.py:687-728 | recovery row by row |
| GenerationEffects.ControlCallsExactly | tomo_core/src/tomo_core/onboarding_store.py:769-854 | the order, attempts and pauses of control updates |
| GenerationEffects.FrameCallsExactly | tomo_core/src/tomo_core/onboarding_store.py:508-590 | who reserves a frame, and that it is settled once |
| GenerationHistory.EndedGenerationsStaySilent | tomo_core/src/tomo_core/onboarding_store.py:508-551 | an ended generation stays ended and never puts another frame on the wire |
| GenerationHistory.FramesAreReservedOnce | tomo_core/src/tomo_core/onboarding_store.py:508-590 | a visible frame is reserved at most once in all, and a known outcome stays |
| GenerationMinimum.MinimumIsRespected | tomo_core/src/tomo_core/onboarding_store.py:672-681 | after a non-terminal failure every later generation of the chat, through any history, reaches the requested minimum |
| GenerationMinimum.TerminalFailureIgnoresMinimum | tomo_core/src/tomo_core/onboarding_store.py:658-671 | after a terminal one, whatever starts next in the chat and whenever it does starts one revision on: the minimum is met exactly when it asks for no more |
| GenerationStore.OnboardingStore.Receive | tomo_core/src/tomo_core/onboarding_store.py:288-374 | the updates in place compute the enqueue transaction |
| GenerationStore.OnboardingStore.Claim | tomo_core/src/tomo_core/onboarding_store.py:399-495 | the updates in place compute the claim transaction |
| GenerationStore.OnboardingStore.Recover | tomo_core/src/tomo_core/onboarding_store.py:687-728 | the loop over active rows computes the recovery transaction |
| GenerationStore.OnboardingStore.MaxRevision | tomo_core/src/tomo_core/onboarding_store.py:325-330 | the aggregate query returns the greatest revision of the chat, zero if none |
| AutomationLane.ExecuteClaim | tomo_core/src/tomo_core/shared_gateway.py:478-551 | whatever happens the reserved generation is not left active, and frames are returned only by the call that completed it: those streamed before the event that completed the turn, with the outcome that event stands for |
| PeerPolicy.DecisionMeans | tomo_core/src/tomo_core/peer_policy.py:30-88 | the policy denies exactly what is unsafe or not permitted, and asks exactly when a needed confirmation is missing |
| PeerPolicy.DenialReasons | tomo_core/src/tomo_core/peer_policy.py:36-78 | each denial names exactly the first fence that failed |
| PeerPolicy.AllowedEarlier | tomo_core/src/tomo_core/peer_policy.py:66-74 | what is allowed at an instant was allowed at every earlier one under the same rows |
| PeerHistory.ApplyKeeps | tomo_core/src/tomo_core/peer_store.py:92-1180 | every store call keeps the invariant and moves permissions and requests only as they may |
| PeerHistory.Play | tomo_core/src/tomo_core/peer_store.py:92-1180 | both hold after every history of calls |
| PeerHistory.JoinRate | tomo_core/src/tomo_core/peer_store.py:390-397 | a submission keeps every one-hour window within the limit |
| PeerHistory.JoinThreads | tomo_core/src/tomo_core/peer_store.py:398-433 | a submission keeps threads numbered without gaps |
| PeerHistory.DecidedSteps | tomo_core/src/tomo_core/peer_store.py:582-614 | the unguarded update of a decision never revives a finished request |
| PeerGuarantees.EqualRevisionsEqualContents | tomo_core/src/tomo_core/peer_store.py:198-321 | equal relationship and grant revisions mean equal contents, owner deletion included |
| PeerGuarantees.FencesHaveNoGap | tomo_core/src/tomo_core/peer_store.py:1026-1050 | the same over every history between two looks |
| PeerGuarantees.FinishedUnderClaimedPermissions | tomo_core/src/tomo_core/peer_store.py:1132-1180 | a response is accepted only under the permissions of its claim, which allow it then and now |
| PeerGuarantees.SubmissionRecordsPermissions | tomo_core/src/tomo_core/peer_store.py:470-504 | a submitted confirmation records the permissions of that very state |
| PeerGuarantees.ApprovalIsForRecordedPermissions | tomo_core/src/tomo_core/peer_store.py:517-620 | an approval takes effect only in time, for the recipient, and under the recorded permissions |
| PeerEffects.DecisionExactly | tomo_core/src/tomo_core/peer_store.py:517-620 | deciding a confirmation: the request is authorized exactly when the recipient says yes, in time, under the recorded revisions, and the stored rows let it pass; otherwise it is denied, as expired or as cancelled; a missing or decided one changes nothing |
| PeerEffects.DecideNowExactly | tomo_core/src/tomo_core/peer_policy.py:30-88 | the policy over the stored rows |
| PeerEffects.AnswerExactly | tomo_core/src/tomo_core/peer_store.py:1103-1180 | an answer row by row: what raises, what is refused, and the frames a response holds |
| PeerEffects.HeartbeatExactly | tomo_core/src/tomo_core/peer_store.py:983-1015 | when a lease is extended, and by how much |
| PeerEffects.DeferralExactly | tomo_core/src/tomo_core/peer_store.py:937-981 | a request put off waits two, then four seconds, and is given up after its third lease |
| PeerEffects.ExpiryExactly | tomo_core/src/tomo_core/peer_store.py:829-878 | what a claim first gives up and takes back |
| PeerEffects.ClaimExactly | tomo_core/src/tomo_core/peer_store.py:879-921 | a claim leases the first listed request that can still be reached, for how long and until when, and denies those before it |
| PeerEffects.SupersedingExactly | tomo_core/src/tomo_core/peer_store.py:647-684 | what a newer turn withdraws |
| PeerRelationEffects.SubmissionExactly | tomo_core/src/tomo_core/peer_store.py:367-506 | a submission row by row: repeated calls, the hourly limit, threads and confirmations |
| PeerRelationEffects.InvitationExactly | tomo_core/src/tomo_core/peer_store.py:121-168 | an invitation row by row, with its limits |
| PeerRelationEffects.AcceptanceExactly | tomo_core/src/tomo_core/peer_store.py:170-196 | who accepts what |
| PeerRelationEffects.GrantExactly | tomo_core/src/tomo_core/peer_store.py:198-270 | a grant row by row, with its expected revision |
| PeerRelationEffects.RevocationExactly | tomo_core/src/tomo_core/peer_store.py:272-302 | a revocation row by row, its requests included |
| PeerRelationEffects.DeletionExactly | tomo_core/src/tomo_core/peer_store.py:304-321 | deleting an owner row by row |
| PeerRelationEffects.NoticeClaimExactly | tomo_core/src/tomo_core/peer_store.py:686-759 | which notice is shown, and which are suppressed |
| PeerRelationEffects.NoticeCallsExactly | tomo_core/src/tomo_core/peer_store.py:761-810 | when a notice is begun, settled and given back |
| PeerGuarantees.EndedRequestsStayEnded | tomo_core/src/tomo_core/peer_store.py:517-1180 | completed, failed and denied are absorbing, response included |
| PeerGuarantees.RequestsAreSound | tomo_core/src/tomo_core/peer_store.py:824-981 | a request that had to be confirmed is leased or answered only if it was; a response exists exactly for completed or failed; at most three leases |
| PeerGuarantees.LeaseGivesBackItsStatus | tomo_core/src/tomo_core/peer_store.py:862-878 | an expired lease gives back exactly the status before it |
| PeerGuarantees.RequestsSettle | tomo_core/src/tomo_core/peer_store.py:824-981 | a request changes status at most seven times and is leased at most three times |
| PeerGuarantees.ThreadsAreQueues | tomo_core/src/tomo_core/peer_store.py:876-920 | a thread holds at most four requests, numbered from one without gaps or repetition, leases one at a time, only after all earlier ones are finished |
| PeerGuarantees.RateIsBounded | tomo_core/src/tomo_core/peer_store.py:390-397 | any closed one-hour window holds at most ten requests of a relationship, whatever the clock does |
| PeerGuarantees.NoticesAreAttemptedOnce | tomo_core/src/tomo_core/peer_store.py:686-822 | a notice is attempted at most once |
| PeerStore.Store.ClaimNext | tomo_core/src/tomo_core/peer_store.py:824-921 | the loops in place compute the claim, and return the status from before the lease |
| PeerStore.Store.ExhaustedRows | tomo_core/src/tomo_core/peer_store.py:834-839 | the first query returns exactly the exhausted requests |
| PeerStore.Store.CandidateRows | tomo_core/src/tomo_core/peer_store.py:879-885 | the second query returns exactly the requests that may be leased |
| PeerStore.Store.Decide | tomo_core/src/tomo_core/peer_store.py:517-620 | the updates in place compute the decision |
| PeerStore.Store.Delete | tomo_core/src/tomo_core/peer_store.py:304-321 | the loop over relationships computes the owner deletion |
| PeerExchange.Exchange.ClaimRequest | tomo_core/src/tomo_core/peer_exchange.py:258-287 | the loop ends; it refuses and denies exactly claims that are not allowed or whose source is gone, hands out the first other one with the permissions it was allowed under, and answers none only when the store has none to lease |
| PeerExchange.Exchange.SubmitRequest | tomo_core/src/tomo_core/peer_exchange.py:129-227 | every answer is accounted for: a repeated call from what is stored, a stranger and a refused request without a trace, and a new request inserted into what the tables have become, with a confirmation exactly when the policy asked for one |
| PeerExchange.Exchange.Answer | tomo_core/src/tomo_core/peer_exchange.py:412-444 | an answer is recorded exactly when its source is active, the lease stands, the recipient answers, no answer was given, and the permissions of the claim still hold; otherwise nothing changes |
| PeerExchange.FewerUnfinished | tomo_core/src/tomo_core/peer_exchange.py:263-287 | a denial leaves fewer unfinished requests, so the claim loop ends |
| SandboxFrames.StreamedExactly | tomo_core/src/tomo_core/sandbox_protocol.py:449-466 | checking each frame as it arrives accepts exactly the sequences in order as a whole |
| SandboxResult.ResultParts | tomo_core/src/tomo_core/sandbox_protocol.py:469-541 | the loops accept exactly the sound results: counts, totals, status and text recounted from the frames and segments |
| SandboxResult.SumSegments | tomo_core/src/tomo_core/sandbox_protocol.py:502-520 | the totals are the recounted ones |
| SandboxEffects.StatusExactly | tomo_core/src/tomo_core/sandbox_protocol.py:521-531 | what the status of a result says about its segments |
| SandboxEffects.TextExactly | tomo_core/src/tomo_core/sandbox_protocol.py:536-541 | the text of a result is its frames with a space between them |
| SandboxResult.SoundResultsShowTheirFrames | tomo_core/src/tomo_core/sandbox_protocol.py:494-541 | a sound result shows text in exactly the segments it calls visible, and a completed one in its last |
| SandboxResult.RoundsNeedCalls | tomo_core/src/tomo_core/sandbox_protocol.py:511-520 | the totals never claim more rounds than calls |
| SandboxStream.ChunksDoNotMatter | tomo_core/src/tomo_core/sandbox_protocol.py:322-334 | events and verdict depend only on the concatenated text |
| SandboxStream.SpentLinesDoNotMatter | tomo_core/src/tomo_core/sandbox_protocol.py:259-286 | a line changes nothing exactly when it is no event or an event equal to one already seen, and then it changes no continuation either |
| SandboxStream.DuplicatesDoNotMatter | tomo_core/src/tomo_core/sandbox_protocol.py:278-286 | repeating any event that already occurred, on whatever line, changes neither events nor verdict |
| SandboxStream.AcceptedStreams | tomo_core/src/tomo_core/sandbox_protocol.py:259-320 | any accepted stream is sequenced, ends with its one terminal event, and its result matches the streamed frames |
| SandboxEffects.LineExactly | tomo_core/src/tomo_core/sandbox_protocol.py:259-320 | one line field by field: what is passed over, what raises, and what a new event leaves |
| SandboxEffects.FrameExactly | tomo_core/src/tomo_core/sandbox_protocol.py:449-466 | which frame may follow the ones streamed, up to three in all |
| SandboxEffects.CutExactly | tomo_core/src/tomo_core/sandbox_protocol.py:322-334 | cutting takes a text apart at its newlines and strips each line |
| SandboxParser.ParseStream | tomo_core/src/tomo_core/sandbox_protocol.py:248-334 | the buffered, chunked parser yields the events and verdict of the whole text |
| Checkpoint.OrdinaryCrashLosesNothing | tomo_core/src/tomo_core/sqlite_personal_data.py:377-420 | a crash at any point of an ordinary checkpoint recovers the snapshot from before or the new one |
| Checkpoint.GenerationsIncrease | tomo_core/src/tomo_core/sqlite_personal_data.py:383-402 | a new snapshot is numbered above every valid one |
| Checkpoint.RecoversExactly | tomo_core/src/tomo_core/sqlite_personal_data.py:234-261 | which snapshot recovery returns, when it returns none, and when it raises |
| Checkpoint.WritesExactly | tomo_core/src/tomo_core/sqlite_personal_data.py:383-402 | which slots are written, and how they are numbered |
| Checkpoint.RecoveryReturnsExactly | tomo_core/src/tomo_core/sqlite_personal_data.py:234-261 | what recovery returns after any history of checkpoints and scrubs, each completed or crashed at any point: what the last attempt that settles it leaves |
| Checkpoint.CompletedCheckpointsAreDurable | tomo_core/src/tomo_core/sqlite_personal_data.py:234-261 | through any number of checkpoints and scrubs, crashed anywhere, recovery returns the last snapshot taken, unless a scrub tears the newest one |
| Checkpoint.FinishedScrubHoldsOnlyTheNew | tomo_core/src/tomo_core/sqlite_personal_data.py:377-420 | a finished scrub leaves both slots with only the new snapshot |
| Checkpoint.DeletedStaysDeleted | tomo_core/src/tomo_core/sqlite_personal_data.py:377-420 | after a finished scrub no later checkpoints or scrubs, crashed anywhere, bring back an older snapshot |
| Checkpoint.ScrubCrash | tomo_core/src/tomo_core/sqlite_personal_data.py:385 | exactly when a crash during a scrub keeps the newest snapshot |
| Checkpoint.ScrubMayLoseTheNewest | tomo_core/src/tomo_core/sqlite_personal_data.py:385 | three checkpoints of an empty disk, after which a crashed scrub leaves recovery with the second |
| Checkpoint.WriteCheckpoint | tomo_core/src/tomo_core/sqlite_personal_data.py:377-420 | the write passes through exactly those disks |
| PersonalPurge.PurgedMessagesAreTheLeastClosedSet | tomo_core/src/tomo_core/sqlite_personal_data.py:769-773 | a purge removes exactly the least closed set around the window, and only the owner's |
| PersonalPurge.NoMessageRemains | tomo_core/src/tomo_core/sqlite_personal_data.py:757-805 | no message stays in the window or related to a purged one |
| PersonalPurge.NoMemoryRemains | tomo_core/src/tomo_core/sqlite_personal_data.py:774-783 | no memory stays that was created in the window or derives from what was purged |
| PersonalPurge.OthersAreUntouched | tomo_core/src/tomo_core/sqlite_personal_data.py:757-805 | nothing of another owner changes |
| PersonalPurge.PurgeRevivesExactly | tomo_core/src/tomo_core/sqlite_personal_data.py:800-801 | exactly which surviving memories come back |
| PersonalPurgeEffects.PurgedMessagesExactly | tomo_core/src/tomo_core/sqlite_personal_data.py:769-773 | the purged messages are the least set that holds the owner's of the window and whole turns with them |
| PersonalPurgeEffects.PurgedMemoriesExactly | tomo_core/src/tomo_core/sqlite_personal_data.py:774-783 | which memories are purged with them |
| PersonalPurgeEffects.PurgeExactly | tomo_core/src/tomo_core/sqlite_personal_data.py:757-805 | which messages and acceptances go |
| PersonalPurgeEffects.PurgeFencesExactly | tomo_core/src/tomo_core/sqlite_personal_data.py:784-797 | which sessions are fenced, and under which revision |
| PersonalPurgeEffects.RevivalExactly | tomo_core/src/tomo_core/sqlite_personal_data.py:800-801 | which memories come back, and as what |
| PersonalGovernance.ApplyKeeps | tomo_core/src/tomo_core/sqlite_personal_data.py:468-805 | every call keeps the governance fence |
| PersonalGovernance.Play | tomo_core/src/tomo_core/sqlite_personal_data.py:468-805 | the fence holds after every history of calls |
| PersonalGovernance.PromoteAllRestatus | tomo_core/src/tomo_core/sqlite_personal_data.py:525-549 | the promotion loop never touches a disabled memory, its unguarded removal included |
| PersonalGovernance.DisabledUntilDeleted | tomo_core/src/tomo_core/sqlite_personal_data.py:682-698 | a memory its owner disabled stays disabled until it is deleted |
| PersonalGovernance.PromotionRespectsDisabling | tomo_core/src/tomo_core/sqlite_personal_data.py:517-550 | no save makes a memory active while the same content is disabled |
| PersonalEffects.StagingExactly | tomo_core/src/tomo_core/sqlite_personal_data.py:574-611 | staging is refused as a whole while capture is off, under another governance revision, or for a session that is not the turn's; otherwise each control adds its row, adds sources, or is passed over, exactly as said |
| PersonalEffects.OnlyCaptureAdds | tomo_core/src/tomo_core/sqlite_personal_data.py:574-611 | only staging while capture is on adds a memory of the owner |
| PersonalEffects.NothingIsCapturedWhileOff | tomo_core/src/tomo_core/sqlite_personal_data.py:580-581 | through every history without switching capture on nothing of the owner is remembered anew |
| PersonalSaveEffects.SavingExactly | tomo_core/src/tomo_core/sqlite_personal_data.py:468-551 | a save row by row: who may save, the session, the acceptances and what is promoted |
| PersonalSaveEffects.MessagesExactly | tomo_core/src/tomo_core/sqlite_personal_data.py:486-497 | which stored messages a save rewrites |
| PersonalSaveEffects.PromotionExactly | tomo_core/src/tomo_core/sqlite_personal_data.py:525-549 | what each promoted memory makes of itself and of its target |
| PersonalSaveEffects.DisablingExactly | tomo_core/src/tomo_core/sqlite_personal_data.py:682-698 | an owner disables memories all together or not at all |
| PersonalSaveEffects.DeletingExactly | tomo_core/src/tomo_core/sqlite_personal_data.py:716-731 | what a confirmed deletion removes |
| PersonalLoopholes.SaveShowsDisabledExactly | tomo_core/src/tomo_core/sqlite_personal_data.py:525-549 | a save shows a hidden row of disabled content exactly when a listed row of the current governance revision archives it, no later one hides it, and it is not itself the disabled row |
| PersonalLoopholes.PurgeShowsDisabledExactly | tomo_core/src/tomo_core/sqlite_personal_data.py:800-801 | a purge does exactly when everything that replaced the row is purged and a disabled row of the same content is not |
| PersonalLoopholes.DisabledContentShowsExactly | tomo_core/src/tomo_core/sqlite_personal_data.py:468-805 | of all calls exactly these show it |
| PersonalExamples.ArchivingMayShowDisabledContent | tomo_core/src/tomo_core/sqlite_personal_data.py:538-542 | a history from empty tables at whose end a save shows disabled content in the archive |
| PersonalExamples.PurgeMayShowDisabledContent | tomo_core/src/tomo_core/sqlite_personal_data.py:801 | a history from empty tables at whose end a purge shows disabled content |
| SessionFence.OldWritersStayOut | tomo_core/src/tomo_core/sqlite_personal_data.py:474-484 | a writer fenced out of a session stays out through every history |
| SessionFence.ApplyMovesFence | tomo_core/src/tomo_core/sqlite_personal_data.py:474-484 | session revisions never go back, and a revision belongs to one holder |
| SessionFence.PurgeFencesOut | tomo_core/src/tomo_core/sqlite_personal_data.py:796-797 | after a purge an in-flight generation may save exactly if its revision is larger |
| SessionFence.NextGenerationPassesTheFence | tomo_core/src/tomo_core/shared_gateway.py:512-518 | after a stale failure with minimum one above, every later generation of the chat, however it comes about, passes the save fence |
| SessionFence.TerminalFailureMayStayFencedOut | tomo_core/src/tomo_core/onboarding_store.py:658-671 | exactly when whatever starts next in the chat passes it after a terminal failure |
| PersonalStore.Repository.SaveSession | tomo_core/src/tomo_core/sqlite_personal_data.py:468-551 | the message and promotion loops compute the save transaction |
| PersonalStore.Repository.StageControls | tomo_core/src/tomo_core/sqlite_personal_data.py:574-611 | the staging loop computes the staging transaction |
| PersonalStore.Repository.PurgedMessages | tomo_core/src/tomo_core/sqlite_personal_data.py:771-773 | the closure query as a worklist finds exactly the purged messages |
| PersonalStore.Repository.Purge | tomo_core/src/tomo_core/sqlite_personal_data.py:757-805 | the working tables compute the purge transaction |

## Left out

- SQLite itself, migrations, WAL, file locks and fsync: transactions are taken to be atomic, and a digest to detect every torn slot.
- Query row orders: rows arrive as sequences in any order the environment chooses, so no property depends on `order by`, except that a generation's messages come in update order.
- Identifiers: tokens, hashes and composed text identifiers are abstract values; a delivery is named by its run and sequence, a confirmation by its request.
- Range limits of instants: instants are unbounded integers in microseconds, so an overflowing backoff or a date outside the calendar's range does not raise.
- Time zones: a zone is a table of offset changes with the fold rule; the five-year search is only characterised for UTC.
- CronExpression.Parse: reads ASCII digits and white space only, where Python accepts further Unicode digits and spaces.
- CronLedger.Blank: treats space, tab, line feed and carriage return as white space, not every Unicode space.
- CronLedger.ValidContent: demands that destination, text and constraints are not blank; length limits and stripping (tomo_core/src/tomo_core/cron_models.py:45-78) are not part of this model.
- CronStore receipts: `mutate_idempotently` (tomo_core/src/tomo_core/cron_store.py:114-160) repeats the job calls behind an idempotency receipt; receipts, `history`, `_progress` and error texts are not part of this model.
- CronSends.SendsAreSafe: a rejected send is taken not to have been accepted by the connector, which the source assumes of every exception of the sender except an uncertain delivery error (tomo_core/src/tomo_core/cron_service.py:93-102).
- CronService.Scheduler: `workers` and `log` stand for the other lanes and the connector, which the source does not hold in one object.
- CronService.Scheduler.Execute: the heartbeat thread is modelled as renewals by others between steps and a flag that the lease was lost.
- GenerationHistory.MessagesAreConserved: owner deletion and chat rebinding are excluded.
- Generations: installation tokens, reactions, latency and the payloads of updates are not part of this model.
- AutomationLane.ExecuteClaim: `_process_generation_work` only appears through the store calls it makes.
- PeerLedger.ValidResponse: bounds frames by length and counts, not by stripped text.
- Peer exchange: request screening (`peer_broker.py`, `peer_safety.py`) is an input; import, export, pruning and history purges are left out, so the rate and thread statements are about ledgers nothing was pruned from.
- PeerStore: registering a handle and inviting exist as transactions only, without a method on the class.
- SandboxStream: version 2 streams, JSON decoding, marker and telemetry recognition are a parameter `read`; the move plan is a flag and frame text a predicate.
- PersonalData: full-text search, pending deletions before they are confirmed, session deletion, import, export and owner deletion.
- Checkpoint.Recover: a snapshot whose digest matches is taken to pass the integrity check, because it passed it before it was written.
- Telegram, the sandbox provider, HTTP, OAuth, the command line and the dashboard.
