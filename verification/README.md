# Verified model of a live market-theme service

This project models the parts of the service that have to stay right over whole runs, and proves what they keep.

* **Canonical Events** (`event_models`, `event_store`, `event_writer`, `event_history`, `event_runs`): a single writer over
  transactional in-memory tables, with receipts for idempotency, optimistic versions, ordering per source, two state axes and
  rollback of a whole transaction. One invariant ties the tables together and survives every command, raised error and failed
  commit; from it follow replayability of the log, unreachability of the store's own conflicts, and invisible redelivery.
* **Outbox** (`outbox_table`, `outbox_relay`, `outbox_publishers`, `outbox_leases`): leases, acknowledgements and releases as a
  step system, the publisher that drives it, any number of publishers of which each may stop between any two of its steps, and
  when two of them hold one message. `event_system` puts writes and publishers on one store.
* **After-close reconciliation** (`reconciliation`, `reconciliation_days`): the pass that matches a day's Events with confirmed
  articles, written through the Event writer, and whole days of passes.
* **Capped weights, theme metrics, turnover** (`weights`, `coverage`, `medians`, `theme_metrics`, `turnover`): water-filling
  over exact reals, coverage ratios under any sound rounding, and point-in-time aggregates.
* **Attention intervals** (`attention`): the day-by-day state machine against a declarative description with one solution.
* **Adjusted-price corpus and its collection** (`corpus`, `backfill`): one cursor over suffix products against the naive
  product, and the resumable collection that establishes the builder's demand.
* **Realtime snapshots** (`realtime`, `realtime_wakeups`): retirement fences, latest-only fan-out, and who is woken for it.
* **Fast forms against simple ones** (`rate_limiter`, `supplemental_gate`, `replay_merge`, `subscriptions`, `gap_recovery`).
* **Evidence** (`evidence`): the decide-and-record loop and what no run of it can undo.

`results` and `sorting` hold what the others share. Digests are free constructors, so equal digests mean equal inputs; instants,
dates and durations are integers; `Decimal` is `real`, exact unless a rounding is a parameter; a raised exception is a `Failure`
with the stated effect on the state; lock-protected methods are atomic steps. Python dictionaries whose order matters carry that
order. Clocks, transports, hashes, text folding and the exchange's answers are parameters.

Where the code does not do what its documentation or name suggests, the model follows the code. Here is what shows that it
happens, and what says exactly when:

* a client dropped from the request limiter gets more than its limit: `RateLimits.CrowdExceedsTheLimit` for every limit and
  bound, exactly when `RateLimits.ExactExactlyWhen` says;
* a publisher that is late can end another's lease, and two leases on one message can run at once:
  `OutboxLeases.LateReleaseEndsAnothersLease`, `OutboxLeases.ExclusiveExactlyWhen`;
* a reconnection after half an hour without candidates records targets the auditor rejects: `Subscriptions.ReconnectWitness`,
  `Subscriptions.AuditAcceptsExactlyWhen`;
* a subscription bound of 0 still selects a stock: `Subscriptions.ZeroBoundWitness`, `Subscriptions.BoundHoldsExactlyWhen`; the
  collector refuses that bound (`scripts/collect_market_replay.py:998-999`), so it reaches only a `CandidateManager` built
  directly;
* "consecutive" empty weekdays may have files between them: `Backfill.StreakSpansAFile`, `Backfill.ConsecutiveExactlyWhen`;
* a COMPLETE collection may fail the builder's coverage check: `Backfill.EarlyKonexFileBreaksCoverage`, `Backfill.CompleteRunCovers`;
* an after-close confirmation can be overtaken by a single article: `Evidence.OvertakenWitness`,
  `Evidence.ConfirmationCanBeOvertaken`;
* an after-close pass is safe to run again at the same time, but at another time over Events not read again it stops on its own
  message ids: `ReconciliationDays.UnrefreshedPassStops`, `ReconciliationDays.PassFailsOnlyOnReusedNames`.

## Model

| member | source | states |
|---|---|---|
| EventModels.DigestInputInjective | packages/events/models.py:529-530 | the text an outbox message id is hashed from determines the command id and the event type, colons in command ids included |
| EventStore.InMemoryEventStore.Insert | packages/events/memory.py:187-193 | a new Event enters both the Event and the identity table, or one of the two existing-key conflicts is raised and nothing changes |
| EventStore.InMemoryEventStore.Update | packages/events/memory.py:195-210 | the row is replaced only from the expected version to its successor; otherwise it conflicts and nothing changes |
| EventStore.InMemoryEventStore.Append | packages/events/memory.py:212-219 | the log grows by one entry unless that Event and version are already logged |
| EventStore.InMemoryEventStore.Save | packages/events/memory.py:221-233 | a receipt is stored once, raising the source's sequence if it is higher; a different command under the same id conflicts |
| EventStore.InMemoryEventStore.Enqueue | packages/events/memory.py:235-248 | a message is enqueued once as pending; a different payload under the same id conflicts |
| EventStore.InMemoryEventStore.Restore | packages/events/memory.py:42-70 | rollback puts back every table of the backup |
| EventStore.InMemoryEventStore.FailNextCommit | packages/events/memory.py:38-40 | the next commit is marked to fail |
| EventStore.InMemoryEventStore.ClaimPending | packages/events/memory.py:93-131 | a claim leases exactly the first `limit` eligible records by (available_at, id), counts the attempt, and returns them in that order |
| EventStore.InMemoryEventStore.MarkPublished | packages/events/memory.py:133-146 | a record becomes published and loses its lease; a published one is not touched again; an unknown id raises |
| EventStore.InMemoryEventStore.ReleaseAfterFailure | packages/events/memory.py:148-167 | a record goes back to pending from the retry time on; a published one is not touched; an unknown id raises |
| EventWriting.EventWriter.Submit | packages/events/writer.py:49-76 | one write is all of the body's effects or none: a raised error or a failed commit leaves every table as it was |
| EventWriting.EventWriter.SubmitInTransaction | packages/events/writer.py:49-76 | a known message id answers from its receipt or is refused for a different command; otherwise the command is carried out and its receipt saved |
| EventWriting.EventWriter.Create | packages/events/writer.py:78-154 | a new identity gets an Event, its first log entry and its message; a known identity is answered without writing |
| EventWriting.EventWriter.Revise | packages/events/writer.py:156-358 | both change commands pass the same guards in order and then move exactly the axis they name along a legal edge |
| EventHistory.WriteIs | packages/events/writer.py:49-358 | under the invariant a write is one of four things: nothing, a receipt, a receipt for a settled command, or a revision with its log entry, message and receipt |
| EventHistory.StoreNeverRefuses | packages/events/memory.py:187-248 | under the invariant no write meets any of the store's own conflicts |
| EventHistory.RevisionKeepsHistories | packages/events/writer.py:120-154 | after a revision every Event row is still the replay of its own log, with versions 1..n and increasing source sequences |
| EventHistory.RevisionKeepsOutbox | packages/events/writer.py:361-380 | after a revision messages and log entries still correspond one to one |
| EventHistory.RevisionKeepsReceipts | packages/events/memory.py:221-233 | after a revision every log entry is acknowledged by exactly one applied receipt, and every receipt names its command's Event |
| EventHistory.WriteKeepsInv | packages/events/writer.py:49-358 | the whole invariant survives any write, including one that raises or whose commit fails |
| EventRuns.RunKeepsInv | packages/events/memory.py:42-70 | the invariant holds after any stream of attempts |
| EventRuns.ReachableTablesAreSound | packages/events/memory.py:42-70 | so it holds of every state reached from the empty store |
| EventRuns.RunsNeverMeetStoreConflicts | packages/events/memory.py:187-248 | on any stream no answer is one of the store's defensive conflicts |
| EventRuns.ReplayableLog | packages/domain/state.py:38-64 | a replayable log begins with a creation, is in time order, and nothing follows CLOSED, DISCARDED or MATCHED on its axis |
| EventRuns.StoredEventIsItsLog | packages/events/writer.py:120-358 | a stored Event's log has versions exactly 1..state_version, folds to its two states, and classification version 2 means MATCHED |
| EventRuns.OutboxMirrorsLog | packages/events/writer.py:361-380 | outbox keys are exactly the ids derived from the log entries, and no two entries share one |
| EventRuns.RunGrows | packages/domain/state.py:38-64 | over any stream logs, receipts, identities and messages only grow, versions never fall, and finished states are never left |
| EventRuns.RunCommits | packages/events/memory.py:221-233 | a successful answer is remembered under its command for the rest of the run |
| EventRuns.RedeliveryIsInvisible | packages/events/writer.py:49-76 | delivering a committed command again anywhere later changes neither the final tables nor any other answer |
| EventRuns.AtMostOneAppliedPerVersion | packages/events/writer.py:165-197 | of the changes of one Event expecting one version at most one command is applied |
| EventRuns.RelayKeepsInv | packages/events/memory.py:93-167 | leasing, acknowledging and releasing keep everything true about Events |
| EventRuns.RunKeepsWellformed | packages/events/models.py:260-300 | commands that their constructors accept never build an Event row its constructor would refuse |
| EventRuns.BuiltValuesAreValid | packages/events/models.py:260-300 | each row and message a valid command builds passes its own constructor's checks |
| EventSystem.EveryRunIsSound | packages/events/memory.py:42-167 | writes, failing writes and commits, and any number of publishers that may stop anywhere, interleaved on one store, keep the Event invariant and the relay's together |
| EventSystem.NoChangeGoesUntold | packages/events/memory.py:42-248 | from the empty store on every log entry ever written keeps its message in the outbox, unaltered and final once published, and published only if the transport took it |
| OutboxTable.ClaimIsDetermined | packages/events/memory.py:93-131 | table, clock and limit leave a claim no freedom |
| OutboxTable.RunKeepsRelayInv | packages/events/memory.py:93-167 | on every run of the table's steps attempts counts the claims, and a record acknowledged only after delivery was delivered |
| OutboxTable.NothingIsLost | packages/events/memory.py:133-167 | no message is ever lost or rewritten, and a published record stays as it is |
| OutboxTable.LeaseIsExclusive | packages/events/memory.py:93-131 | a message is claimed again before its lease ends only if it was released in between |
| OutboxTable.NothingIsStranded | packages/events/memory.py:93-131 | an unpublished message is claimable once its time and its lease are over |
| OutboxPublishers.PublishersRunTheTable | packages/events/outbox.py:172-208 | however many publishers interleave and wherever they stop, their program order alone makes what happens to the table a run of its steps |
| OutboxPublishers.PublishedWasDelivered | packages/events/outbox.py:172-208 | on every run of publishers, crashes included, attempts counts the claims and PUBLISHED means the transport took the message |
| OutboxPublishers.NothingStaysStranded | packages/events/memory.py:93-131 | whatever stopped where, an unpublished message whose time and lease are over is in the next claim that has room |
| OutboxPublishers.CallRunsToItsEnd | packages/events/outbox.py:172-208 | a call nothing interrupts is one such run and leaves exactly the table PublishPending is proved to leave |
| OutboxLeases.ExclusiveExactlyWhen | packages/events/memory.py:93-167 | on a run no two publishers ever hold one message at once exactly when no claim hands out a message whose holder is still at it past its lease |
| OutboxLeases.TellersEndTheirOwnLease | packages/events/memory.py:133-167 | on such a run whoever acknowledges or releases a message ends its own lease and nobody else's |
| OutboxLeases.LapsedIsTaken | packages/events/memory.py:93-131 | a held message is in a claim with room exactly from the end of its holder's lease on |
| OutboxLeases.LateReleaseEndsAnothersLease | packages/events/memory.py:148-167 | a late publisher's release ends the lease of the next one, and a third claims the message while that lease runs |
| OutboxRelay.OutboxPublisher.PublishPending | packages/events/outbox.py:172-208 | the batch is the determined claim; accepted messages end published, refused ones pending after the delay; claimed = published + failed and published counts the accepted ones |
| OutboxRelay.OutboxPublisher.SettleAll | packages/events/outbox.py:185-205 | each claimed record is settled by what the transport said of it and no other record is touched |
| Reconciliation.ConfirmationsFromThemeDetails | packages/events/reconciliation.py:64-99 | every dated history entry is confirmed exactly once by identifier, and every confirmation states what some entry recorded |
| Reconciliation.GroupByTheme | packages/events/reconciliation.py:119-128 | the grouping holds, for each theme with any, the day's rising articles in identifier order |
| Reconciliation.ReconcileAfterClose | packages/events/reconciliation.py:102-207 | the loop over Events through the writer is the pass: plans in id order, each written or skipped, ended by the first error where it stands |
| Reconciliation.UnmatchedConfirmations | packages/events/reconciliation.py:194-200 | the articles handed back are those of the themes without an eligible Event, by theme name and within it by identifier, each of the day's rising ones as often as given |
| Reconciliation.PlannedCommandsAreValid | packages/events/models.py:107-111 | commands built from deduplicated confirmations never repeat a lineage reference and pass their constructors |
| Reconciliation.PassPartitions | packages/events/reconciliation.py:140-192 | matched, unmatched and skipped partition the eligible Events by whether they have a rising article and what they already are |
| Reconciliation.SameInputRerunIsInvisible | packages/events/reconciliation.py:112-118 | running a finished pass again at the same time repeats its answers from the receipts and leaves the store as it is |
| Reconciliation.CurrentPassIsApplied | packages/events/reconciliation.py:140-192 | over current Events every write is applied exactly when each planned change is later than its Event and its last pass and has an unused name; every row then says what its article meant |
| Reconciliation.RefreshedPassWritesNothing | packages/events/reconciliation.py:142-148 | after an applied pass another over the refreshed Events writes nothing unless an article came for an unmatched one |
| ReconciliationDays.PassFailsOnlyOnReusedNames | packages/events/reconciliation.py:112-192 | whenever its Events were read, a pass goes through exactly when no planned change wants a name another command bears, and fails only so |
| ReconciliationDays.UnrefreshedPassStops | packages/events/reconciliation.py:112-118 | after a finished pass, one over the same Events and articles at another time writes nothing: it skips all, or stops on the reused name, by whether there was anything to write |
| ReconciliationDays.EveryPassOfTheDayIsApplied | packages/events/reconciliation.py:1-10 | over Events read again before each pass every pass of a day is applied, late articles included, and in the end an Event is matched exactly when an article came for it by some pass |
| ReconciliationDays.SettledDayWritesNothing | packages/events/reconciliation.py:142-148 | after such a day a further pass at any time writes nothing unless an article is for an Event left unmatched |
| Weights.CappedWeightingUnique | packages/calculations/weights.py:60-126 | whatever the level, one capitalisation map has one capped weighting |
| Weights.CappedWeightsFollowCaps | packages/calculations/weights.py:60-126 | every weight is in (0, cap] and a larger capitalisation never weighs less |
| Weights.RaisingOneCap | packages/calculations/weights.py:60-126 | raising one capitalisation never lowers its own weight nor raises another's |
| Weights.SomeIdFits | packages/calculations/weights.py:92-120 | no round caps all remaining ids at once |
| Weights.NextRound | packages/calculations/weights.py:107-120 | capping the overfilled ids leaves ids and positive mass, and only raises the level |
| Weights.LastRound | packages/calculations/weights.py:112-114 | when nothing overfills, fixed and proportional weights together are the capped weighting |
| Weights.Redistribute | packages/calculations/weights.py:89-120 | the loop terminates on the capped weighting of its capitalisations |
| Weights.ApplyResidual | packages/calculations/weights.py:29-57 | for any weights: the first id in order that can take the residual takes all of it and the sum becomes exactly 1, or it raises and nothing changes |
| Weights.ResidualStaysInRange | packages/calculations/weights.py:29-57 | weights within [0, cap] stay there and at most one changes |
| Weights.CalculateCappedWeights | packages/calculations/weights.py:60-126 | a cap outside (0, 1] and duplicate ids are refused, no input gives no weights, and otherwise the one capped weighting is listed in id order |
| Weights.InputOrderIrrelevant | packages/calculations/weights.py:71-76 | permuting the inputs changes nothing in the answer |
| Weights.CalculateWeightedReturn | packages/calculations/weights.py:129-142 | it fails exactly when ids differ and otherwise is the weighted sum |
| Weights.WeightedReturnBetween | packages/calculations/weights.py:129-142 | the weighted return of a full weighting lies between the smallest and largest return |
| CoverageRatios.PartNeverExceedsWhole | packages/calculations/theme_metrics.py:301-317 | leaving terms out of a sequentially rounded sum never makes it larger, for any rounding that keeps order and fixes representable values |
| CoverageRatios.RatioIsARatio | packages/calculations/theme_metrics.py:301-317 | so the rounded ratio of observed to all capitalisation is in [0, 1] |
| CoverageRatios.MixedPrecisionBreaksTheBound | packages/calculations/theme_metrics.py:303-306 | were numerator and denominator rounded differently, a fully observed theme's ratio would exceed 1 exactly when the denominator's rounding loses more, which is why both sums share one precision |
| CoverageRatios.MixedPrecisionWitness | packages/calculations/theme_metrics.py:303-306 | one stock whose capitalisation the rounding lowers is enough |
| CoverageRatios.FromCounts | packages/domain/coverage.py:23-56 | a part can be built exactly from nested counts and a weight ratio in [0, 1] or none |
| Medians.MedianOfPermutation | packages/calculations/theme_metrics.py:110-119 | a median exists exactly for non-empty lists and depends on the values only |
| Medians.MedianSplits | packages/calculations/turnover.py:50-57 | at least half of the values are on either side of it |
| ThemeMetrics.LateRecordsAreIgnored | packages/calculations/theme_metrics.py:122-206 | records learned or observed after the decision, or of another day, change no figure of the metrics |
| ThemeMetrics.IndexUnique | packages/calculations/theme_metrics.py:97-107 | indexing fails exactly on a repeated stock and otherwise holds each record under its stock |
| ThemeMetrics.CalculateThemeMetrics | packages/calculations/theme_metrics.py:233-405 | it fails exactly for an unknown membership or repeated records, and otherwise each figure is the stated one over the members in stock order, coverage construction never failing |
| ThemeMetrics.WeightedReturnIsSpanned | packages/calculations/theme_metrics.py:355-374 | the weighted return is one number, within the returns of the observed core |
| ThemeMetrics.MetricsAreBounded | packages/calculations/theme_metrics.py:51-59 | a theme may be ranked exactly when coverage is sufficient; weighted return and median lie within the returns they are taken over |
| Turnover.SelectedIsLatestKnown | packages/domain/models.py:102-135 | the selected membership was effective and known, and nothing that also was is as late |
| Turnover.HistoryIsTheRunBefore | packages/calculations/turnover.py:60-72 | the baseline days are the unbroken run of at most `lookback` trading days before the evaluated one |
| Turnover.IndexIsComplete | packages/calculations/turnover.py:75-90 | indexing a bucket fails exactly when two of its observations share stock and day and otherwise loses none |
| Turnover.IndexObservations | packages/calculations/turnover.py:75-90 | the loop is that index, or the duplicate error |
| Turnover.CalculateThemeTurnover | packages/calculations/turnover.py:109-263 | the loops over members and days compute the turnover function, its first error included |
| Turnover.MultipleLiesBetweenStocks | packages/calculations/turnover.py:210-241 | a multiple exists exactly when a stock has one, so the zero-denominator answer is unreachable, and it lies between two stocks' multiples |
| Turnover.IrrelevantObservationsAreIgnored | packages/calculations/turnover.py:75-208 | an observation of another minute changes nothing on any input; one outside the lookback or of another stock changes nothing unless it repeats a stock and day |
| Turnover.LateMembershipsAreIgnored | packages/calculations/turnover.py:131-186 | memberships learned after the evaluation change nothing, given the history was recorded by then |
| Turnover.CountIsAtMostTheDays | packages/calculations/turnover.py:169-190 | a stock counts at most one value a day, and as many as days exactly when every day has a usable one |
| Attention.TimelineUnique | packages/calculations/attention.py:197-281 | the declarative description of a timeline has one solution |
| Attention.ClosingDaysFollowLast | packages/calculations/attention.py:252-272 | the quiet days that close an interval all come after its last attention day |
| Attention.IntervalsAreDisjoint | packages/calculations/attention.py:197-281 | intervals are ordered, disjoint and at least N days apart, and only the last may be open |
| Attention.TrueDaysAreCovered | packages/calculations/attention.py:221-262 | every True day lies in an interval |
| Attention.ClosedIntervalsAreFinal | packages/calculations/attention.py:197-281 | extending the calendar, and learning its new days, changes no closed interval: neither dates nor gap, reason or versions |
| Attention.DayAdvances | packages/calculations/attention.py:221-275 | one more day turns the timeline of the days before it into the timeline including it |
| Attention.PresentGapIsConfirmed | packages/calculations/attention.py:227-245 | a present gap counts the days between two intervals, all confirmed quiet, and is at least N |
| Attention.IndexSignals | packages/calculations/attention.py:205-215 | the first signal off the calendar, repeated or of another policy is the error raised |
| Attention.BuildTimeline | packages/calculations/attention.py:197-281 | the loop over days builds the one timeline, with the dates, gaps and versions of its intervals |
| Corpus.ProductStepsBack | packages/historical_data/corpus.py:329-357 | stepping back one row multiplies the product of later factors by that row's own factor only |
| Corpus.DailyReturnPreserved | packages/historical_data/corpus.py:258-357 | after the latest break the exact adjusted return of adjacent rows is close / (close - change) |
| Corpus.ReturnsCompound | packages/historical_data/corpus.py:258-357 | so the adjusted series compounds the reported returns over any window |
| Corpus.RangeSurvives | packages/historical_data/corpus.py:317-325 | rounding that keeps order keeps low <= close <= high |
| Corpus.CursorProduct | packages/historical_data/corpus.py:352-357 | the cursor's suffix product is the product of all factors dated after the row |
| Corpus.SuffixProducts | packages/historical_data/corpus.py:329-336 | the backward loop fills in every suffix product |
| Corpus.AdjustStock | packages/historical_data/corpus.py:337-371 | what one pass overwrites on top of the raw prices is the naive definition, and the withheld rows are those before the break |
| Corpus.ScanLinks | packages/historical_data/corpus.py:247-284 | the single ordered pass finds exactly each stock's factors and latest break |
| Corpus.BuildAdjustedPrices | packages/historical_data/corpus.py:240-371 | every row gets the naive adjusted prices of its own stock, and exactly the rows before a latest break are withheld and counted |
| Backfill.FailsAfterFourAttempts | packages/historical_data/backfill.py:119-135 | a request fails only when all four attempts failed, and with the last one's error |
| Backfill.Fetch | packages/historical_data/backfill.py:119-135 | the retry loop settles on that answer |
| Backfill.Archive.Collect | packages/historical_data/backfill.py:138-216 | the nested day and market loops are the collection function, stopping for budget, transport, contract, missing data or interruption |
| Backfill.CollectionIsAccounted | packages/historical_data/backfill.py:138-216 | a run keeps every file, adds only files it was asked for, one a call and within the budget, and COMPLETE means none is missing |
| Backfill.BudgetDecides | packages/historical_data/backfill.py:152-154 | an unhindered run completes exactly when the budget covers what is missing; otherwise it adds exactly max_calls files |
| Backfill.ResumingTerminates | packages/historical_data/backfill.py:1-6 | as many unhindered runs as the budget needs leave nothing missing |
| Backfill.StreakCountsAcrossSkippedDays | packages/historical_data/backfill.py:148-208 | while a run goes on a market's streak counts its latest empty answers, and days already on file do not end it |
| Backfill.ConsecutiveExactlyWhen | packages/historical_data/backfill.py:186-206 | a run that reports DATA_UNAVAILABLE had fifteen empty answers of one market with no full one between; they are its last fifteen weekdays exactly when none between them was on file before |
| Backfill.StreakSpansAFile | packages/historical_data/backfill.py:149-206 | with one Tuesday on file, fifteen empty answers over sixteen weekdays end the run |
| Backfill.RequireWeekdayCoverage | packages/historical_data/corpus.py:129-146 | it lists, in order, exactly the missing weekdays between the first and last file, and none exactly when all are there |
| Backfill.CompleteRunCovers | packages/historical_data/corpus.py:129-146 | COMPLETE leaves the old files and the requested ones, and a market passes the check exactly when the weekdays between those that the run does not answer for were on file beforehand |
| Backfill.InRangeDirectoryIsCovered | packages/historical_data/corpus.py:129-146 | a directory of files the run would itself have asked for passes the check after COMPLETE |
| Backfill.EarlyKonexFileBreaksCoverage | packages/historical_data/backfill.py:146-147 | a KONEX file from before that market opened, with a weekday missing before the opening, makes a complete collection fail the check |
| Realtime.HistoryIsFenced | apps/api/realtime.py:178-234 | whatever is published, the applied history visits each stream once with increasing sequence, and the retired streams are exactly the earlier ones |
| Realtime.SendingMovesForward | apps/api/realtime.py:548-585 | sending the latest after anything else extends a strictly advancing selection of the history |
| Realtime.EveryRunIsFenced | apps/api/realtime.py:178-311 | however publishes, subscriptions and deliveries interleave, every history is fenced and every subscription saw a strictly advancing selection of it |
| Realtime.DrainedShowsLatest | apps/api/realtime.py:548-585 | after a drain a subscription's last snapshot is the latest, if its schema is spoken |
| RealtimeWakeUps.SleepersAreUpToDate | apps/api/realtime.py:205-320 | no wake-up is lost: a connection with its event clear, no notification on its way and no drain owed or running has sent the latest spoken snapshot of each of its topics |
| Realtime.RealtimeSnapshotHub.Publish | apps/api/realtime.py:178-234 | one publish moves one scope's fence as specified, leaves the others, and wakes exactly the listeners of that scope when applied |
| Realtime.RealtimeSnapshotHub.Wait | apps/api/realtime.py:302-304 | a wait ends exactly when the listener's event is set, and clears it |
| Realtime.RealtimeSnapshotHub.OpenListener | apps/api/realtime.py:240-244 | a new listener starts without subscriptions |
| Realtime.RealtimeSnapshotHub.AddSubscription | apps/api/realtime.py:246-256 | a subscription is entered under its id for an open listener, and refused for a closed one |
| Realtime.RealtimeSnapshotHub.CloseListener | apps/api/realtime.py:277-279 | closing forgets the listener's subscriptions and nobody else's |
| Realtime.Connection.DeliverTopic | apps/api/realtime.py:560-585 | a topic's latest snapshot goes out once if it is new and its schema is spoken, and is remembered |
| Realtime.Connection.SendPending | apps/api/realtime.py:548-585 | a drain does exactly that for each topic of the connection's subscriptions and touches nothing else |
| Realtime.Connection.Unsubscribe | apps/api/realtime.py:258-267 | removing a subscription forgets what it was sent |
| RateLimits.RateLimiter.Allow | apps/api/http.py:188-198 | one call prunes, answers and records as specified; with no room for any client it raises |
| RateLimits.RateLimiter.MakeSpace | apps/api/http.py:200-209 | stale clients go first, then those whose latest hit is oldest, until there is room |
| RateLimits.StepKeepsInv | apps/api/http.py:188-209 | the table never outgrows its bound, each deque is the end of its client's allowed requests, and a client below the limit is never refused |
| RateLimits.RefusalsAreJustified | apps/api/http.py:188-209 | on every run with a forward clock a refusal means the limit was really reached in the window |
| RateLimits.LosesExactlyWhen | apps/api/http.py:188-209 | a call takes a live client's place exactly when it has none itself and there is no room even without the stale clients |
| RateLimits.BoundedIsNaive | apps/api/http.py:188-209 | as long as no call takes a live client's place, the bounded limiter answers as one that forgets nothing |
| RateLimits.RoomyIsUndropped | apps/api/http.py:188-209 | which is so while fewer than maximum_clients clients are live |
| RateLimits.DroppedClientExceedsTheLimit | apps/api/http.py:208-209 | for every limit and bound: after a call that takes a live client's place, that client asking again at once is allowed a request beyond its limit |
| RateLimits.CrowdExceedsTheLimit | apps/api/http.py:188-209 | whatever the limit, window and bound, one client more than the bound asking at once makes a dropped client exceed its limit |
| RateLimits.ExactExactlyWhen | apps/api/http.py:188-209 | a run can be told from the naive limiter, at some point by some client, exactly when one of its calls takes a live client's place |
| SupplementalGate.SupplementalSearchGate.Request | packages/catalyst/supplemental.py:52-78 | one request checks evidence, cooldown and quota in that order and records a grant |
| SupplementalGate.StepFollowsRule | packages/catalyst/supplemental.py:52-78 | the two small tables answer as if every grant were remembered |
| SupplementalGate.EveryAnswerFollowsTheRule | packages/catalyst/supplemental.py:52-78 | so does every answer of a run with a forward clock |
| SupplementalGate.GrantsAreSpaced | packages/catalyst/supplemental.py:60-68 | grants for one event are a cooldown apart and no window holds more than quota grants |
| ReplayMerge.PopLeast | scripts/replay_market.py:2204-2207 | the head popped is least by (time, source rank, sequence) |
| ReplayMerge.StepKeepsHeads | scripts/replay_market.py:2205-2237 | popping a head and pushing its source's next keeps exactly one head per unfinished source |
| ReplayMerge.IterCombinedEvents | scripts/replay_market.py:2184-2237 | the heap merge yields exactly what sorting all events by time, source and position would, numbered from 1 |
| ReplayMerge.ReplayIsOrdered | scripts/replay_market.py:2184-2237 | the replay is numbered 1..n in order of (time, source rank, sequence) |
| ReplayMerge.ReplayInterleaves | scripts/replay_market.py:2184-2237 | every event appears exactly once and each source keeps its own order |
| ReplayMerge.ProveReplay | scripts/replay_market.py:2257-2308 | the checker passes exactly a non-empty, correctly numbered, time-ordered stream with intact payloads |
| ReplayMerge.CheckerAcceptsReplay | scripts/replay_market.py:2245-2308 | a combined replay is always numbered and time-ordered, so it passes exactly when it is not empty and every payload is intact |
| Subscriptions.FreezeInfostock | scripts/collect_market_replay.py:475-488 | however often a theme appears in the files, every listed member's stock knows the theme |
| Subscriptions.CandidateManager.Observe | scripts/collect_market_replay.py:276-288 | an observation refreshes or adds one candidate and counts the hit; an unreadable code changes nothing |
| Subscriptions.CandidateManager.SelectTargets | scripts/collect_market_replay.py:290-338 | within the update interval the current targets stay, otherwise the fresh selection is returned and dirty says whether it differs |
| Subscriptions.CandidateManager.ExplainTargets | scripts/collect_market_replay.py:345-382 | each target is a candidate with its sources and hits, or a member of active candidates' themes with these and their codes, or unresolved |
| Subscriptions.TallyCounts | scripts/collect_market_replay.py:309-314 | a score counts a stock's mentions and its order is the earliest place |
| Subscriptions.RankingIsOrdered | scripts/collect_market_replay.py:300-322 | the ranking lists each code once: leading candidates by recency, hits and code, then members by score |
| Subscriptions.FreshTargetsAreTheTop | scripts/collect_market_replay.py:323-338 | a fresh selection repeats no code, is the front of the ranking as a set, and keeps survivors in their order |
| Subscriptions.BoundHoldsExactlyWhen | scripts/collect_market_replay.py:323-330 | the bound holds except when it is zero and some active candidate has a theme member |
| Subscriptions.ZeroBoundWitness | scripts/collect_market_replay.py:323-330 | a zero bound is exceeded as soon as one candidate has a theme with a member |
| Subscriptions.SelectedIsTouched | scripts/collect_market_replay.py:300-330 | each selected stock is an active candidate or a member of one's theme |
| Subscriptions.TargetsAreExplained | scripts/collect_market_replay.py:345-382 | with consistent maps no fresh target is unresolved while its candidates are still active |
| Subscriptions.ReasonMeans | scripts/collect_market_replay.py:345-382 | a target is explained exactly while it or a stock sharing a theme with it was seen within the lifetime |
| Subscriptions.AuditProvenance | scripts/replay_market.py:1028-1114 | the audit passes exactly when it finds every subscription counted before, there is a target and all can be traced |
| Subscriptions.LastSeenIsLatest | scripts/replay_market.py:1024-1064 | the auditor's table holds the latest refresh of each stock refreshed at all |
| Subscriptions.AuditorAgrees | scripts/replay_market.py:1076-1096 | over a record in time order the auditor and the manager give every stock the same kind of reason |
| Subscriptions.AuditAcceptsExactlyWhen | scripts/replay_market.py:1020-1114 | a record in time order is accepted exactly when each target, or a stock sharing a theme, was refreshed in the thirty minutes before its subscription was recorded |
| Subscriptions.EveryRecordIsAccountable | scripts/collect_market_replay.py:562-720 | however observations, selections, lost connections and registrations interleave, each recorded subscription carries a selection made earlier from what was recorded by then |
| Subscriptions.AuditAcceptsManager | scripts/replay_market.py:1020-1114 | with consistent maps such a record is accepted if no stock active in a selection ran out before it was recorded |
| Subscriptions.RecordedAtOnceIsPrompt | scripts/collect_market_replay.py:638-720 | in particular if it was recorded at the moment of the selection |
| Subscriptions.LateReconnectIsRejected | scripts/collect_market_replay.py:618-622 | a reconnection after more than thirty minutes without a candidate always costs the record its acceptance |
| Subscriptions.ReconnectWitness | scripts/collect_market_replay.py:618-622 | one candidate seen, subscribed and lost from sight is enough |
| GapRecovery.LastSeenIsTheLatest | scripts/collect_market_gap_recovery.py:181-206 | as of a minute a stock was last seen at the latest refreshing event received by its end |
| GapRecovery.TargetsAreTheLatest | scripts/collect_market_gap_recovery.py:199-205 | as of a minute the subscribed stocks are the list of the latest stock subscription received by its end, or none |
| GapRecovery.IntendedMeans | scripts/collect_market_gap_recovery.py:207-222 | a minute's stocks are exactly the theme members of stocks seen within the lifetime, in the master, not listed by the latest stock subscription received by its end |
| GapRecovery.ReconstructIntendedCodesByMinute | scripts/collect_market_gap_recovery.py:129-224 | the forward cursor gives one entry a minute, each the answer of a replay from scratch up to that minute |
| Evidence.ConfirmationNeedsTwo | packages/catalyst/policy.py:68-79 | several sources confirm only with two publishers and two titles that differ |
| Evidence.StrengthMovesOnlyOnEvidence | packages/catalyst/policy.py:40-133 | nothing is strengthened without evidence; new evidence weakens exactly an after-close confirmation, or a confirmation by several sources when it lacks two publishers or two titles; and never to none |
| Evidence.EvidenceRevisionStore.Record | packages/catalyst/revisions.py:41-74 | an unchanged decision returns the last revision; any other appends the next one and dates newly cited news |
| Evidence.DecideAndRecord | apps/worker-news/pipeline.py:268-281 | the loop body decides against the current revision and records the result |
| Evidence.EveryHistoryIsSound | packages/catalyst/revisions.py:41-83 | on every run revisions count from 1, neighbours differ, cited news has the time it came in, and evidence never goes back to none |
| Evidence.HistoriesGrow | packages/catalyst/revisions.py:41-74 | histories are only extended |
| Evidence.EmptyLooksAreInvisible | packages/catalyst/policy.py:95-111 | an empty look at an Event with evidence leaves no trace in any history, then or later in the run |
| Evidence.ConfirmationCanBeOvertaken | packages/catalyst/policy.py:68-92 | whatever led to an after-close confirmation, a look overtakes it exactly when it brings an article and no after-close text |
| Evidence.OvertakenWitness | packages/catalyst/policy.py:68-92 | one after-close confirmation and one article later are enough |

## Left out

- Weights.CalculateCappedWeights: exact reals instead of the 60- and 120-digit decimals, so there the residual is always 0; what `Weights.ApplyResidual` does with any other residual is proved separately.
- Realtime.RealtimeSnapshotHub.Publish: does not check the shape of ids, parameter keys and versions, because those checks only raise before anything changes.
- Reconciliation.CurrentPassIsApplied: message names are parameters required to be distinct text, because the 16-digit article digest is taken as injective.
- Subscriptions.AuditAcceptsManager: the collector's monotonic clock and the recorded time of an event are taken to agree, because the record holds only the latter; the choice and the sending of a selection are modelled apart.
- Subscriptions.EveryRecordIsAccountable: index subscriptions and the collector's other records are left out, because the provenance audit does not read them.
- RateLimits.BoundedIsNaive: the clock is taken not to go back, because the source's deques are only pruned from the front.
- OutboxTable.ClaimIsDetermined: message ids are ordered by some fixed total order instead of by their digests' text.
- ThemeMetrics.CalculateThemeMetrics: quality flags, issue lists, versions and the list of weights are not part of the result.
- Turnover.CalculateThemeTurnover: quality flags and unavailable reasons are not part of the outcome; quotients are exact.
- Attention day evaluation (`packages/calculations/attention.py:100-166`): branches over thresholds that would only add easy members.
- PostgreSQL and SQLite text, connections, advisory locks, files and atomic renames: tables are maps and sequences, and the event store is the in-memory one.
- The transaction wrapper object of the in-memory store: its methods are those of the store class.
- HTTP routing, cookies, sign-in, operator console, app assembly: plumbing.
- WebSocket and asyncio scheduling: only the atomic publish, subscribe and drain steps, and which listeners are woken; error frames for an unsupported schema are not counted as sent.
- Clients of the exchange, brokers, news sites and language models; sleeps and retry delays.
- SHA-256, canonical JSON, Unicode folding and stock-code normalisation: free constructors or parameters; text checks know ASCII blanks only.
- The corpus writer's tables of factors, breaks, market days and metadata beyond what the adjusted prices and the withheld count depend on.
- The collection's periodic status file and progress callbacks; an interruption is modelled where a request is made.
- Equal instants written in different time zones: an instant is one integer.
- Ontology classification, pipeline hysteresis, historical matching and news matching: not modelled.
