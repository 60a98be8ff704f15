# Order radar: a verified model

The order radar collects messages from public Telegram sources, classifies them, groups duplicates, and notifies
users of orders that match their subscriptions. This project models the stateful parts of that pipeline in Dafny and
proves what they guarantee over whole runs, and it proves a few algorithms against textbook definitions.
`dafny verify dfyconfig.toml` checks everything.

The code's shape is kept. A service whose methods write tables is a class whose methods are proved equal to a
specification function; the guarantees are lemmas about runs of that function. Clock readings, Telegram's answers,
answers of database queries whose order is open, the trained model's output and what a regular expression finds are
inputs. Time is a number; a database table is a sequence or a map.

| files | what they model |
|---|---|
| `notification_model.dfy`, `notification_guarantees.dfy`, `notification_service.dfy`, `notification_windows.dfy`, `notification_eligibility.dfy`, `notification_decisions.dfy`, `quiet_hours.dfy` | delivery of notifications, immediately and from the deferred sweep |
| `collector.dfy`, `collector_service.dfy`, `flood_waits.dfy` | the local replica of a source's messages, and when the source may be read |
| `leases.dfy`, `request_budget.dfy` | Redis leases and the request budget of an account |
| `deduplication.dfy`, `deduplication_runs.dfy` | duplicate groups and their canonical orders |
| `classification_rules.dfy`, `order_classification.dfy` | labels, scores and the gate to the order table |
| `dictionary_cache.dfy` | the cached keyword dictionaries and their writers |
| `calendar_months.dfy`, `partition_names.dfy`, `message_partitions.dfy` | monthly partitions of the message table |
| `keyword_matching.dfy`, `like_escape.dfy`, `dataset_split.dfy` | bounded edit distance, LIKE escaping, the train/holdout split |
| `instants.dfy`, `order_statuses.dfy`, `sequences.dfy`, `sorting.dfy`, `rounding.dfy`, `wrappers.dfy` | shared definitions |

## Where the code does not do what one would expect

Each of these is a lemma. Where the code meets the expectation only sometimes, the lemma states exactly when.

- Sending again is meant to be impossible (the product specification in docs/, line 897). With `bot_send_max_retries`
  below one a delivery is marked sent although nothing left (`NoRetriesMarksUnsentAsSent`,
  `NoRetriesMarksUnsentAsSwept`), and a sweep that overlaps other work sends again what was sent since its query
  (`StaleSweepIsSafeIffNotYetSent`).
- The sweep checks neither the rate limit nor quiet hours. Whatever its limit, a user can get any number of swept
  messages at one instant (`SweepsExceedAnyLimit`); a window keeps the limit exactly when the sweep happens to do what
  the check would have asked (`WindowsHoldIffSweepsDo`, `SweepStaysWithinLimitIff`), and a late sweep falls into quiet
  hours again (`SendsRespectQuietHours`).
- A message with a performer's marker is never an order, although a clear need is meant to win (the same document,
  line 80); see `OrderLabelIff`. The floor of 0.62 on the confidence of an order is never reached from below, and manual
  review gets exactly the weak orders (`OrderConfidence`, `ManualReviewIsForWeakOrders`). Predictions of the trained
  model are not left to manual review at all, whatever their confidence (`DefaultGateWithMl`).
- Classifying a message again returns a dismissed or archived order to new (`ClassifyingAgain`).
- Once the oldest member of a duplicate group leaves the window, or when orders match only in part, a detection records
  a size and a canonical order that do not fit the members (`SlidingWindowLeavesGroupInconsistent`,
  `PartialMatchLeavesGroupInconsistent`; exactly when: `DetectionIsConsistentIffClosed`, `DetectionKeepsGroupedIff`).
- More new messages than the batch limit leave a gap that is never filled (`NothingMissedIff`, `SkippedForever`). A
  second collection is not idle after a backfill that dropped an old message above everything it kept
  (`SecondCollectionIsIdleIff`). Every sync undoes the normalization of a processed message (`ProcessingIsUndoneIff`).
- A crash between INCR and EXPIRE blocks an account for good once the limit is used up (`CrashGetsStuck`,
  `GrantsAgainIff`), and a minute can hold twice the budget but no more (`TwiceTheBudgetInAMinute`, `BudgetOverRuns`).
- A collection longer than the lease lets a second one in (`LongSectionsOverlap`, `EntersIffNobodyHoldsUnexpired`).
- A wait that Telegram asks for while messages are synced is caught by nobody: the source stays unpaused and the next
  collection reads it early (`SyncWaitIsNotKept`, exactly when: `CollectionKeepsWaitsIff`, `NoEarlyRetriesIff`). A paused
  source is still connected for (`ConnectsDuringWait`).
- An invalidation is overtaken by a reader that loaded before the commit (`AfterInvalidation`).
- The shortest retention the code accepts, 30 days, drops a month that maintenance still keeps
  (`ThirtyDaysAreNotEnough`, `DropSparesMaintainedIff`).

## Model

| member | source | states |
|---|---|---|
| `NotificationModel.SendWithRetry` | app/bot/services.py:440-462 | Attempts stop at the first acceptance, so at most one is accepted and every earlier one failed; when none is, the last error is raised; with no attempts allowed it returns quietly without having sent |
| `NotificationModel.Find` | app/bot/services.py:416-425 | The delivery of an order and user is the first row with that key, and the row count means that there is none |
| `NotificationModel.SerialRunIsASteppedRun` | app/bot/services.py:66-232 | Calls that do not overlap are runs of single recipient and delivery steps, each enabled when its turn comes |
| `NotificationModel.SweepClearsItsBatch` | app/bot/services.py:186-232 | A sweep handles deliveries deferred until now or earlier, at most a hundred and none before one that is due earlier; none it handles stays deferred, and what it leaves out is unchanged |
| `NotificationModel.SomeBatchExists` | app/bot/services.py:186-196 | For all deliveries, the sweep query can be answered within its limit, earliest first, leaving out none that is due earlier |
| `NotificationGuarantees.StepShape` | app/bot/services.py:90-163 | A step changes at most one delivery, which was deferred or did not exist, leaves it settled, and accepts at most one message, which that delivery records; with at least one attempt allowed it is marked sent only then |
| `NotificationGuarantees.StepKeepsDeliveredOnce` | app/bot/services.py:90-229 | One recipient or one due delivery keeps: one row per order and user, sent exactly when one message was accepted, no row queued, no message without a row |
| `NotificationGuarantees.AtMostOnce` | app/bot/services.py:66-232 | Over every serial run of notifications, sweeps and outside changes, at most one message per order and user is accepted and the table says exactly which were |
| `NotificationGuarantees.TerminalDeliveriesAreFinal` | app/bot/services.py:108-118 | Sent, failed and skipped deliveries never change again |
| `NotificationGuarantees.StaleSweepIsSafeIffNotYetSent` | app/bot/services.py:201-231 | A sweep that works on an outdated query result keeps the guarantee exactly when nobody has sent the delivery meanwhile |
| `NotificationGuarantees.NoRetriesMarksUnsentAsSent` | app/bot/services.py:447-462 | A notification that gets as far as sending keeps the guarantee exactly when at least one attempt is allowed |
| `NotificationGuarantees.WindowHoldsAtMostLimit` | app/bot/services.py:265-285 | If every immediate send looked back one period and found fewer than the limit, a closed window of one period holds at most the limit |
| `NotificationGuarantees.SlidingWindowRateLimit` | app/bot/services.py:265-285 | Over every interleaved run of steps, a closed window of one period holds at most the limit of immediate sends made under that limit and period |
| `NotificationGuarantees.SlidingWindowRateLimitOfCalls` | app/bot/services.py:96-98 | The same over every serial run of whole calls |
| `NotificationGuarantees.CooldownSeparatesSimilarSends` | app/bot/services.py:288-312 | Over every run, an immediate send under a cooldown has no earlier send, of either kind, of another order with the same non-empty fingerprint to the same user in the closed cooldown window before it |
| `NotificationGuarantees.SendsRespectQuietHours` | app/bot/services.py:123-140 | Over every run, an immediate send was decided outside quiet hours, and a swept one falls into the quiet hours that deferred it exactly when it is later than the rest of the day allows |
| `NotificationGuarantees.NoRetriesMarksUnsentAsSwept` | app/bot/services.py:201-221 | The same exact condition for a sweep that gets as far as sending |
| `NotificationWindows.ImmediateSendsStayWithinLimit` | app/bot/services.py:265-285 | Over every run, up to and including an immediate send under a limit, the period before it holds at most that many messages to the user, of both kinds and under whatever subscriptions |
| `NotificationWindows.WindowsHoldIffSweepsDo` | app/bot/services.py:265-285 | Over every run with a monotone clock, every closed window of a period holds at most the limit of messages of both kinds exactly when every message not checked against it, swept ones above all, went out while the check would have let it |
| `NotificationWindows.SweepStaysWithinLimitIff` | app/bot/services.py:201-229 | After any run, the next swept message goes out within a limit exactly when the check, which the sweep does not make, would have let it |
| `NotificationWindows.SweepsExceedAnyLimit` | app/bot/services.py:123-140 | From empty tables, for every limit and number of orders, notifications in quiet hours are all deferred and then swept at one instant |
| `NotificationService.TallyIsConserved` | app/bot/services.py:85-88 | Every recipient or due delivery is counted exactly once |
| `NotificationService.SentCountIsMessagesAccepted` | app/bot/services.py:151-159 | With at least one attempt allowed the sent count is the number of messages Telegram accepted; with none, nothing leaves |
| `NotificationService.SweepDefersNothing` | app/bot/services.py:198-232 | A sweep sends, fails or skips; it defers nothing |
| `NotificationService.NotificationService.GetOrCreateDelivery` | app/bot/services.py:409-437 | The existing row is returned unchanged, or one queued row is appended |
| `NotificationService.NotificationService.NotifyRecipient` | app/bot/services.py:90-163 | One turn of the recipient loop is exactly one notification step: which guard skips, what a deferral, failure or success writes |
| `NotificationService.NotificationService.SendOrderNotification` | app/bot/services.py:66-176 | The tables after the call and its counts are those of the notification steps of its recipients; an unavailable card or no recipients changes nothing |
| `NotificationService.NotificationService.SweepDelivery` | app/bot/services.py:201-229 | One turn of the sweep loop is exactly one sweep step |
| `NotificationService.NotificationService.ProcessDeferredNotifications` | app/bot/services.py:179-232 | The tables after the sweep are those of its steps, and sent, failed and skipped add up to the deliveries processed |
| `NotificationEligibility.OnlyDeservingOrdersAreSent` | app/bot/services.py:315-363 | Every message of a call is about an order that was canonical, fresh, relevant and open at the start of the call and recent enough when its card was fetched, and goes to a recipient with a subscription or, swept, to an active user with a chat |
| `NotificationEligibility.StepKeepsOrders` | app/bot/services.py:157-158 | A step writes nothing to an order but its notification time and accepts at most one message |
| `NotificationEligibility.NotifiableMeansDeserving` | app/bot/services.py:315-347 | The test of a card: canonical in its group, fresh, relevant, new, viewed or contacted, and published at most so many days ago |
| `NotificationDecisions.SentExactlyWhen` | app/bot/services.py:90-163 | Over every run with at least one attempt, a recipient is sent the message exactly when a subscription matches, fewer messages than its limit went to this user in its period, none of them in its cooldown about another order with the same non-empty fingerprint, no delivery of the order to this user exists but a deferred one that has fallen due, it is not quiet, and Telegram accepts an attempt; skipped, without a trace, exactly when one of all but the last two fails |
| `NotificationDecisions.ReachesIffMayGo` | app/bot/services.py:265-312 | In such a state the guards on the delivery table say what the messages that went out say |
| `NotificationDecisions.NotificationIsRecorded` | app/bot/services.py:120-163 | What the row and the order hold after a deferral, after a failure (failed, with the last error cut to 2000 characters) and after a success, and that nothing else is written |
| `NotificationDecisions.SweptExactlyWhen` | app/bot/services.py:201-229 | A sweep skips a delivery exactly when its order no longer deserves a card or its user is inactive or without a chat, and otherwise sends or fails it, with what the row and the order hold afterwards |
| `NotificationDecisions.SweepSendsInOrder` | app/bot/services.py:186-229 | A sweep sends first what fell due first, and nothing that is not due |
| `NotificationDecisions.CountsTellTheRows` | app/bot/services.py:85-88 | Over every run, as many rows became sent, failed and, in a sweep, skipped as the counts say |
| `NotificationDecisions.CountsAreOfTheirKind` | app/bot/services.py:85-88 | Each of the four counts is the number of steps that went that way |
| `NotificationDecisions.CallsStepThrough` | app/bot/services.py:66-232 | A notification takes a step for each recipient in order when its order deserves a card, and none otherwise; a sweep one for each delivery of its batch |
| `QuietHours.QuietIsTheTailOfTheCycle` | app/services/subscription_matching.py:39-54 | Same-day and wrapping ranges alike: the quiet instants are the last part of each day-long cycle that ends at the end time |
| `QuietHours.NextEndIsFirstExit` | app/services/subscription_matching.py:57-76 | The returned end is strictly later, at most a day away, not quiet, with nothing but quiet before it, and exists exactly when now is quiet |
| `QuietHours.AfterExitQuietIffLate` | app/services/subscription_matching.py:57-76 | Which instants are quiet again, counted from the end of a deferral |
| `QuietHours.PromptSendIsNotQuiet` | app/services/subscription_matching.py:39-76 | Sending within a day less the quiet length after the end is outside quiet hours |
| `QuietHours.QuietFromStartToEnd` | app/services/subscription_matching.py:39-54 | In hours and minutes: quiet are exactly the instants from the start time of some day, on the local clock, to the next end time, and none when one of the two is missing |
| `QuietHours.DeferralEndsAtTheEndTime` | app/services/subscription_matching.py:57-76 | A deferral ends when the local clock shows the hour and minute of the end |
| `Collector.FetchedIdsAreNew` | app/collector/messages.py:257-260 | Everything fetched is above the offset, ascending and not stored, so the update branch is never taken for it, and the offset does not move back |
| `Collector.CollectKeepsValid` | app/collector/messages.py:183-213 | A collection keeps ids unique and at or below the offset |
| `Collector.ReplicaOverRuns` | app/collector/messages.py:156-227 | Over every run, with failures and processing between: unique ids, none above the offset, the offset monotone, a soft-deleted row never revived, only ids above the old offset added |
| `Collector.SkippedForever` | app/collector/messages.py:257-261 | A message that is not stored when the offset passes it is never stored |
| `Collector.NothingMissedIff` | app/collector/messages.py:251-265 | A collection misses no new message exactly when the new ones fit the batch limit and, to begin with, none is older than the days of the backfill and its buffer |
| `Collector.CollectedByAge` | app/collector/messages.py:188-267 | Of its batch a collection stores everything once something has been seen, and to begin with exactly what is at most backfill plus buffer days old; nothing else is added, and the new offset is the greatest id stored |
| `Collector.SomeBatchExists` | app/collector/messages.py:257-261 | For every log, offset and limit there is an answer to the fetch: the newest messages above the offset, at most so many |
| `Collector.AppliedShowsTheMessage` | app/collector/messages.py:306-327 | A row that a message is applied to shows it and is live, and is written, and dated, exactly when it did not or was not before |
| `Collector.WrittenRowsAreDated` | app/collector/messages.py:306-368 | A row that a collection writes carries its date, except that marking it deleted changes nothing else |
| `Collector.EnqueuedOncePerChange` | app/collector/messages.py:189-227 | A message is enqueued once for being stored and once for being edited or deleted meanwhile, an old one exactly when its row changes |
| `Collector.DeletedAreCounted` | app/collector/messages.py:330-368 | The deletions counted are the rows that were live and no longer are |
| `Collector.CollectionConverges` | app/collector/messages.py:330-368 | Afterwards a row that was live or new is live and equal to its remote snapshot when the remote has it, is deleted now when the remote lacks it, and rows deleted before are untouched |
| `Collector.SecondCollectionIsIdleIff` | app/collector/messages.py:188-227 | With the remote unchanged, an immediate second collection changes nothing and enqueues nothing, exactly when the first backfill kept nothing or dropped no message above everything it kept |
| `Collector.StragglerIsAboveOffset` | app/collector/messages.py:251-265 | Such a dropped message is one that lies above the new offset of a backfill that kept something |
| `Collector.StragglerExists` | app/collector/messages.py:251-261 | Such a backfill exists |
| `Collector.ProcessingIsUndoneIff` | app/collector/messages.py:306-327 | After processing, the next sync puts the raw text back and enqueues the message again exactly when the two texts differ |
| `CollectorService.SortedBatch` | app/collector/messages.py:188-188 | Sorting the kept snapshots of a batch lists them oldest first |
| `CollectorService.MessageCollector.FetchMessageSnapshots` | app/collector/messages.py:245-267 | The snapshots are those of the batch, in order, without those the initial backfill drops |
| `CollectorService.MessageCollector.UpsertMessage` | app/collector/messages.py:270-303 | An unknown message is inserted; a known one is brought up to date, and the two flags tell which happened |
| `CollectorService.MessageCollector.Apply` | app/collector/messages.py:306-327 | The row equals the snapshot and is live; it is touched exactly when it was not so before |
| `CollectorService.MessageCollector.SyncExistingMessages` | app/collector/messages.py:330-368 | Every live row is updated or soft-deleted by the remote, the changed ids are exactly those rows, and deleted plus updated is their number |
| `CollectorService.MessageCollector.CollectSource` | app/collector/messages.py:125-181 | Connects before it looks at the pause; a waiting or paused source is not read; what it makes of the access of the source, and when it raises, is what the model of waits says; the tables change only by the collection of the model |
| `CollectorService.MessageCollector.RecoverFloodWait` | app/services/floodwait_recovery.py:18-37 | Exactly the waits that are over end |
| `CollectorService.SyncedOnlyIfItMatters` | app/collector/messages.py:336-345 | Telegram is asked about known messages exactly when one is live, that is, when its answer can make a difference |
| `FloodWaits.FetchWaitsAreKept` | app/collector/messages.py:169-181 | Over every run of collections, recoveries and the clock, whichever requests meet waits, the source is not read while a wait met in fetching lasts |
| `FloodWaits.NoEarlyRetries` | app/services/floodwait_recovery.py:1-37 | Over every run in which only fetches meet waits, the source is never read while one lasts |
| `FloodWaits.CollectionKeepsWaitsIff` | app/collector/messages.py:133-204 | A collection keeps to every earlier wait exactly when it does not read or none of them still lasts |
| `FloodWaits.NoEarlyRetriesIff` | app/collector/messages.py:133-204 | Over every run, the source is never read early exactly when each collection that reads starts after all waits |
| `FloodWaits.SyncWaitIsNotKept` | app/collector/messages.py:198-203 | A wait met in syncing leaves the source unpaused, and for every length of it the next collection that connects reads the source early |
| `FloodWaits.ConnectsDuringWait` | app/collector/messages.py:133-143 | A collection of a paused source connects to Telegram all the same, and does nothing else |
| `FloodWaits.ResumesIffOver` | app/collector/messages.py:169-181 | After a wait met in fetching the source is collectable again, and only after a recovery, exactly from the end of the wait on |
| `FloodWaits.HowFarACollectionGets` | app/collector/messages.py:125-204 | Which of its three requests a collection makes, what each is answered, and that it raises exactly when its last one met a wait that was not for reading |
| `CollectorService.MessageCollector.SaveSnapshots` | app/collector/messages.py:183-197 | The loop inserts every snapshot, updates none, and ends at the greatest id |
| `CollectorService.MessageCollector.StoreAndSync` | app/collector/messages.py:183-227 | The tables are those of the collection in the model, the enqueued ids are the stored, edited and deleted rows, and enqueued = saved + updated + deleted; a wait met in syncing known messages raises and rolls all back |
| `CollectorService.MessageCollector.CollectWithClient` | app/collector/messages.py:156-227 | A wait met in fetching stores nothing and pauses the source for its seconds; otherwise as above, with the access of the source unchanged |
| `Leases.LeaseProtocol` | app/collector/leases.py:31-96 | Over every interleaving of processes and the clock: one holder of an unexpired lease per key, finished sections shorter than the TTL do not overlap, every entry is some lease of a process |
| `Leases.StepKeepsInv` | app/collector/leases.py:10-61 | Each acquisition, release, crash and tick keeps this |
| `Leases.MutualExclusion` | app/collector/leases.py:40-49 | Two unexpired leases on one key are the same lease of the same process |
| `Leases.ReleaseTakesOnlyItsOwn` | app/collector/leases.py:10-16 | The release script removes no other key and no other holder's entry |
| `Leases.NeverBlocked` | app/collector/messages.py:86-122 | From any phase a process is idle in at most two commands without the clock moving, with none of its entries left, no other lease changed and every other entry still in the store |
| `Leases.AccountBusyLeavesNoTrace` | app/collector/messages.py:103-108 | A collection that finds its account busy leaves every key present or absent as it was, and every process in its phase |
| `Leases.NoEntryOutlivesItsTtl` | app/collector/leases.py:40-49 | A crashed holder blocks its key for at most the TTL |
| `Leases.BlocksExactlyForItsTtl` | app/collector/leases.py:40-96 | A lease that is not given up blocks its key exactly until the seconds of a source lease or of an account lease are over, counted from when it was taken |
| `Leases.EntersIffNobodyHoldsUnexpired` | app/collector/leases.py:40-49 | In every reachable state a process gets the lease exactly when nobody holds it unexpired |
| `Leases.LongSectionsOverlap` | app/collector/leases.py:31-61 | For every TTL, two processes work on one source at a time once the first has taken that long |
| `Leases.RedisServer.Set` | app/collector/leases.py:42-48 | SET with NX and EX: stored exactly when the key is absent or expired |
| `Leases.RedisServer.EvalRelease` | app/collector/leases.py:10-16 | Deleted exactly when the key is present with this token |
| `Leases.RedisLease.Enter` | app/collector/leases.py:40-49 | Acquired exactly when the key was free |
| `Leases.RedisLease.Exit` | app/collector/leases.py:51-61 | Releases only what was acquired |
| `Leases.CollectSourceMessages` | app/collector/messages.py:86-122 | A collection is a run of its process in the lease protocol, with a section for each lease it held as long as the work; which of the four outcomes it has; and it leaves neither of its keys behind and touches no other, even when its leases ran out |
| `Leases.CollectForAccount` | app/collector/messages.py:100-116 | The same of the inner account lease: busy exactly when the key is present, and then nothing changes |
| `RequestBudget.BudgetOverRuns` | app/collector/rate_limit.py:12-24 | Over every interleaving of INCR and delayed or lost EXPIRE, a key lifetime grants at most the limit and any closed minute at most twice the limit |
| `RequestBudget.TwiceTheBudgetInAMinute` | app/collector/rate_limit.py:12-24 | For every limit some run has a closed minute with exactly twice as many grants |
| `RequestBudget.KeyLivesAMinuteFromExpire` | app/collector/rate_limit.py:17-20 | A key counts on for sixty seconds after its EXPIRE and then starts over at one |
| `RequestBudget.GrantsAgainIff` | app/collector/rate_limit.py:17-20 | Some run grants another request exactly when it is not so that the key lacks an expiry, nobody owes it one and the limit is reached |
| `RequestBudget.StuckStaysStuck` | app/collector/rate_limit.py:17-20 | In that state no run grants anything again |
| `RequestBudget.CrashGetsStuck` | app/collector/rate_limit.py:17-20 | For every limit a crash between INCR and EXPIRE leads there |
| `RequestBudget.AccountBudget.Incr` | app/collector/rate_limit.py:17-17 | Counts up, starting over when the key has expired and keeping its expiry otherwise |
| `RequestBudget.AccountBudget.Expire` | app/collector/rate_limit.py:18-19 | Gives a present key its expiry and does not create one |
| `RequestBudget.AccountBudget.AcquireAccountRequestSlot` | app/collector/rate_limit.py:12-24 | A request is the INCR step of the model, followed by its EXPIRE step when it created the key, with the same answer |
| `Deduplication.ChooseCanonicalOrder` | app/services/deduplication.py:298-309 | The choice is a candidate that no other precedes |
| `Deduplication.ChoiceIsTheLeast` | app/services/deduplication.py:298-309 | The chosen order is the unique least one of the candidate set, whatever order the rows come in |
| `Deduplication.MembersAfter` | app/services/deduplication.py:316-341 | A detection moves exactly its candidates into the target group, or a lone order out of any |
| `Deduplication.DetectionReusesGroup` | app/services/deduplication.py:316-341 | Several candidates end in one group: in that of the first grouped one if the table has it, and then no group is created, in a new one otherwise |
| `Deduplication.DetectionWritesNothingElse` | app/services/deduplication.py:57-175 | A detection saves the fingerprint of its order, regroups only its candidates and writes only the group they end in; a lone order leaves its group and no group changes |
| `Deduplication.CandidatesAre` | app/services/deduplication.py:191-213 | The candidates are the order itself and the orders of the window with its fingerprint saved or with its contents, if it has any |
| `Deduplication.CanonicalIsEarliest` | app/services/deduplication.py:298-309 | The recorded canonical order is published no later than any candidate; among equals it has at least as many details, then at least the relevance, then the smaller id |
| `Deduplication.CompletenessCountsDetails` | app/services/deduplication.py:285-296 | Completeness is the number of the six details that an order has |
| `Deduplication.DetectionIsConsistentIffClosed` | app/services/deduplication.py:57-175 | After a detection every group has the right size and canonical order exactly when no candidate shared a group with a non-candidate |
| `DeduplicationRuns.CandidatesAreTheClass` | app/services/deduplication.py:191-213 | With all orders in the window and equal contents meaning equal fingerprints, the candidates are the orders of the class that were looked at themselves or repeat the contents, and the whole class exactly when all are |
| `DeduplicationRuns.DetectionKeepsGrouped` | app/services/deduplication.py:57-175 | A detection that sees the grouped orders of its class keeps: groups within classes, at most one group per class, sizes and canonical orders right |
| `DeduplicationRuns.DetectionKeepsGroupedIff` | app/services/deduplication.py:198-208 | With several candidates, it keeps them exactly when it sees every grouped order of its class; with none but itself, exactly when the order shares no group |
| `DeduplicationRuns.GroupingOverRuns` | app/services/deduplication.py:57-175 | The same over every run of arrivals and detections in any order |
| `DeduplicationRuns.RightAfterDetection` | app/bot/services.py:338-341 | Right after a detection what it could see of its class, the whole class once all were looked at, is one group or a lone ungrouped order, and a member passes the canonical test of notifications exactly when it is the least |
| `DeduplicationRuns.OnePassesAfterDetection` | app/bot/services.py:338-341 | Of what the detection could see, one order passes the canonical test and no other does |
| `DeduplicationRuns.SlidingWindowLeavesGroupInconsistent` | app/services/deduplication.py:191-213 | A run from empty tables after which, the oldest member having left the window, a detection leaves a group whose size and canonical order do not match its members |
| `DeduplicationRuns.PartialMatchLeavesGroupInconsistent` | app/services/deduplication.py:198-208 | A run from empty tables after which a fingerprint match, not transitive with a hash match, breaks a group in the same way |
| `DeduplicationRuns.ResultTellsTheTables` | app/services/deduplication.py:134-175 | The returned group, canonical order, count and method are what the tables hold afterwards; the method is the content hash exactly when the order has one |
| `DeduplicationRuns.Deduplicator.UpsertDuplicateGroup` | app/services/deduplication.py:316-341 | The first existing group of the rows is reused, else a new one made, with this canonical order and size, and every row is assigned to it |
| `DeduplicationRuns.Deduplicator.DetectDuplicates` | app/services/deduplication.py:57-175 | The tables and the result are those of the detection in the model |
| `KeywordMatching.LevenshteinAtMostOne` | app/processing/keywords.py:135-158 | Equals the recursive Levenshtein distance capped at two, for all strings |
| `KeywordMatching.LevSymmetric` | app/processing/keywords.py:135-158 | The distance, hence its bounded form, is symmetric |
| `KeywordMatching.LevEqualLengths` | app/processing/keywords.py:141-143 | For equal lengths, distance up to one is the number of differing positions |
| `KeywordMatching.LevLengthsOneApart` | app/processing/keywords.py:145-158 | For lengths one apart, distance one is a single skip |
| `KeywordMatching.MatchFuzzyWord` | app/processing/keywords.py:111-132 | Nothing exactly when the phrase has a space or fewer than six characters or no word of at least six is within distance one; otherwise the first such word with its true distance |
| `OrderSearch.EscapeLikeIsPerCharacter` | app/services/orders.py:175-176 | The three successive replacements equal a per-character escape |
| `OrderSearch.UnescapeInvertsEscape` | app/services/orders.py:175-176 | Unescaping gives the query back |
| `OrderSearch.SearchPatternMeansContains` | app/services/orders.py:164-172 | The wrapped escaped pattern matches exactly the texts that contain the query, for every case folding |
| `OrderSearch.BackslashMustComeFirst` | app/services/orders.py:175-176 | Escaping the percent sign first would leave it a wildcard |
| `DatasetSplit.HoldoutCount` | app/classification/training.py:138-140 | At least one group and never all when there are two or more, none otherwise |
| `DatasetSplit.HoldoutIsTheShare` | app/classification/training.py:138-140 | Within half a group of the groups times the ratio where the bounds do not bite, ties to even, and at a bound beyond |
| `DatasetSplit.GroupByLabel` | app/classification/training.py:125-129 | Every example is in the group of its label and hash, as often as given, and only non-empty groups exist |
| `DatasetSplit.DealLabel` | app/classification/training.py:133-141 | The first groups of a label by hash go to the holdout and the others to the training side, complete |
| `DatasetSplit.SplitDataset` | app/classification/training.py:120-144 | The loops produce the split: each side sorted, holding exactly its examples of known labels |
| `DatasetSplit.SplitIgnoresOrder` | app/classification/training.py:120-144 | Any permutation of the examples gives the identical split |
| `DatasetSplit.SplitConserves` | app/classification/training.py:131-144 | Training side and holdout together are all examples with known labels, as multisets |
| `DatasetSplit.SplitDoesNotLeak` | app/classification/training.py:139-141 | No group is on both sides, and no text is when no text carries two labels |
| `DatasetSplit.EveryLabelIsTrainedAndHeldOut` | app/classification/training.py:136-141 | How many groups of each label are on each side: with two or more groups both have one, a single group is all training |
| `DatasetSplit.HoldoutComesFirst` | app/classification/training.py:135-143 | The held out groups of a label come before those kept in the lexicographic order of their hashes |
| `DatasetSplit.SidesAreInOrder` | app/classification/training.py:362-363 | Each side is in lexicographic order of label, hash and text |
| `DatasetSplit.PayloadIsInOrder` | app/classification/training.py:111-117 | The payload holds the hash and label of every example, in lexicographic order |
| `DatasetSplit.PairsAre` | app/classification/training.py:112-115 | Hash and label, in this order, for each example |
| `DatasetSplit.PayloadIsTheContents` | app/classification/training.py:111-117 | Two datasets have the same checksum payload exactly when they have the same labelled hashes as multisets |
| `DatasetSplit.ChecksumIgnoresOrder` | app/classification/training.py:111-117 | Any permutation of the examples gives the same payload |
| `DatasetSplit.LabelsAreDistinct` | app/classification/rules.py:10-19 | No label is listed twice, so no example is dealt twice |
| `Sorting.SortIsSorted` | app/classification/training.py:144-144 | Sorting by a tuple of strings gives a sorted permutation |
| `Sorting.SortedIsUnique` | app/classification/training.py:362-363 | Sorted permutations are identical when equal keys mean equal elements |
| `Sorting.StrLeqIsLexicographic` | app/classification/training.py:135-135 | Strings are compared by their first difference, a prefix first |
| `CalendarMonths.AddMonthsIsShift` | app/services/message_partitions.py:21-24 | Adding months, negative ones too, moves the month number by as much until the calendar ends |
| `CalendarMonths.AddNoMonths` | app/services/message_partitions.py:21-24 | Adding no months leaves a month start alone |
| `CalendarMonths.AddMonthsCountsMonths` | app/services/message_partitions.py:21-24 | Twelve months to a year: the result is so many months away, the first of its month, and missing exactly beyond the years 1 to 9999 |
| `CalendarMonths.AddMonthsIsAnAction` | app/services/message_partitions.py:21-24 | Two moves add up |
| `CalendarMonths.MonthIsUnique` | app/services/message_partitions.py:31-34 | A day lies in exactly one month |
| `CalendarMonths.YearsStartWhereTheFormulaSays` | app/services/message_partitions.py:17-24 | The month lengths used are the Gregorian ones: years start where the closed formula puts them |
| `CalendarMonths.DayNumberIsGregorian` | app/services/message_partitions.py:17-24 | The day number of a date is the Gregorian closed formula with the table of days before each month |
| `PartitionNames.NamesRoundTrip` | app/services/message_partitions.py:27-28 | Names are parsed back to their month for years 1 to 9999 |
| `PartitionNames.ReadIsInjective` | app/services/message_partitions.py:14-14 | Two names, in ASCII and without a final newline, read the same exactly when they are equal |
| `PartitionNames.ReadMonthName` | app/services/message_partitions.py:129-134 | The name made for a month reads as that month |
| `PartitionNames.NameIsSpelled` | app/services/message_partitions.py:27-28 | Letter by letter: the prefix, four digits of the year, an underscore, two digits of the month |
| `PartitionNames.ReadsAsMonthIff` | app/services/message_partitions.py:126-137 | A name reads as a month exactly when it is the one made for it, as the default partition exactly when it is that name, and otherwise looks like a month only with a year 0 or a month outside 1 to 12 |
| `MessagePartitions.PartitionsTile` | app/services/message_partitions.py:31-34 | Consecutive bounds meet exactly and a day lies in the partition of its month only |
| `MessagePartitions.PartitionMaintenance.EnsureMonthPartition` | app/services/message_partitions.py:53-67 | Created with the bounds of its month unless it exists; the last month of the calendar fails before anything is created |
| `MessagePartitions.PartitionMaintenance.KeepMonth` | app/services/message_partitions.py:106-112 | One turn of the loop: the month is in the catalogue, and reported created exactly when it was not |
| `MessagePartitions.PartitionMaintenance.EnsureUpTo` | app/services/message_partitions.py:104-113 | The loop ends after keeping every month from first to last, reporting each and those it created |
| `MessagePartitions.PartitionMaintenance.EnsureMessagePartitions` | app/services/message_partitions.py:70-116 | The default partition and exactly behind + ahead + 1 months are kept; beyond the calendar the call fails and changes nothing |
| `MessagePartitions.PartitionMaintenance.DropExpiredMessagePartitions` | app/services/message_partitions.py:119-148 | Exactly the monthly partitions before the cutoff month go; a name of a month that does not exist fails the call and nothing goes |
| `MessagePartitions.SecondEnsureCreatesNothing` | app/services/message_partitions.py:104-116 | A second run creates nothing |
| `MessagePartitions.EnsureKeepsTheSpan` | app/services/message_partitions.py:100-116 | The months kept are those from max(behind, 0) before this month to max(ahead, 0) after it, the ones created those of them that were missing, everything else stays, and the call fails exactly when they or the month after them leave the calendar |
| `MessagePartitions.EnsureKeepsWellNamed` | app/services/message_partitions.py:53-67 | Every monthly partition covers the month it is named after |
| `MessagePartitions.MaintainedDaysCoveredOnce` | app/services/message_partitions.py:104-113 | Every day of a maintained month is covered by exactly one monthly partition |
| `MessagePartitions.DroppedRowsAreOldEnough` | app/services/message_partitions.py:126-141 | Every row in a dropped partition is older than the configured retention and older than 30 days |
| `MessagePartitions.DroppedExactlyAfterRetention` | app/services/message_partitions.py:126-141 | Dropped are exactly the listed months whose last day is more than the larger of the configured retention and 30 days ago |
| `MessagePartitions.DropSparesMaintainedIff` | app/services/message_partitions.py:126-141 | Dropping spares every maintained month exactly when the cutoff day lies before the end of the oldest |
| `MessagePartitions.RetentionOf31DaysAMonthIsEnough` | app/services/message_partitions.py:100-126 | 31 days of retention for each month behind are enough on every date |
| `MessagePartitions.ThirtyDaysAreNotEnough` | app/services/message_partitions.py:126-141 | With 30 days and one month behind, the last of January drops December, which is still maintained |
| `ClassificationRules.OrderLabelIff` | app/classification/rules.py:138-173 | A message is labelled an order exactly when it has no negative hit and no ad, spam, vacancy, resume or partnership marker, does more than ask, and is strong enough; then both penalties are 0 and p_client is 1 |
| `ClassificationRules.MarkersDecideInOrder` | app/classification/rules.py:142-157 | With several markers spam decides first, then vacancy, resume, partnership and at last an ad; without any the message is an order, a discussion or irrelevant |
| `ClassificationRules.OrderConfidence` | app/classification/rules.py:167-170 | Confidence in an order is 0.55 when it is weak and 0.76 to 0.95 otherwise |
| `ClassificationRules.OtherConfidence` | app/classification/rules.py:142-173 | The confidence of every label, by label, strength and what the message only asks |
| `ClassificationRules.DiscussionIff` | app/classification/rules.py:156-173 | Which clean messages that are no orders are discussions and which are irrelevant |
| `ClassificationRules.ManualReviewIsForWeakOrders` | app/classification/rules.py:84-88 | With a band like the default one exactly the weak orders are left to manual review |
| `ClassificationRules.RelevanceFits` | app/classification/rules.py:176-189 | A score is between 0 and 100 whatever the weights |
| `ClassificationRules.DefaultRelevance` | app/classification/rules.py:176-189 | With the default weights the relevance of a clean message is its points and 12, rounded, and reaches 60 exactly with 47.5 points |
| `ClassificationRules.DefaultScore` | app/classification/rules.py:104-135 | With the default weights the score of any message is its points, those for the likelihood of a client, and ten less for an ad and for spam, cut to 0 to 100 and rounded |
| `ClassificationRules.NewerIsNoLessRelevant` | app/classification/rules.py:176-189 | A newer message never has fewer points, and with the default weights the same label and no less relevance |
| `Rounding.RoundAtLeast` | app/classification/rules.py:189-189 | round() reaches an integer from the half below it on, that half included only for even integers |
| `Rounding.Round4KeepsThreshold` | app/classification/rules.py:93-93 | Rounding to four places crosses no threshold that has four places |
| `OrderClassification.OfKind` | app/services/order_classification.py:118-133 | Exactly the extracted entities of one kind |
| `OrderClassification.FirstOfKind` | app/services/order_classification.py:118-133 | The first entity of a kind stays the first |
| `OrderClassification.InputIsTheMessage` | app/services/order_classification.py:118-133 | What the rules see is the text, date and prefilter of the message and which kinds of entity it has |
| `OrderClassification.WhoDecides` | app/services/order_classification.py:144-181 | A usable prediction replaces label, confidence and manual review and keeps the relevance of the rules for an order; otherwise the rules decide |
| `OrderClassification.GateIs` | app/services/order_classification.py:232-240 | The gate for all settings, in what the rules and the prediction say and in the instants of publication and of the check |
| `OrderClassification.OrdersAreClean` | app/services/order_classification.py:144-181 | With a positive relevance threshold, whoever decides, what becomes an order is labelled one by the rules, clean and without penalty |
| `OrderClassification.MlAloneMakesAnOrderIff` | app/services/order_classification.py:148-163 | Against the rules a prediction makes an order exactly when the relevance threshold is not positive |
| `OrderClassification.DefaultGateWithMl` | app/services/order_classification.py:144-181 | Under default settings with the trained model on, exactly which messages become orders: a prediction replaces the strength of 0.58 and manual review, not cleanliness, relevance and the seven days |
| `OrderClassification.RulesConfidencePassesIff` | app/services/order_classification.py:232-240 | A weak order of the rules passes on confidence exactly when the threshold is at most 0.55 and 0.55 is outside the manual band; a strong one passes for thresholds up to 0.76 and bands below it |
| `OrderClassification.DefaultGate` | app/services/order_classification.py:232-240 | Under default settings, exactly which messages become orders: clean, more than a question, strength at least 0.58, 47.5 points, and at most seven days old to the microsecond |
| `OrderClassification.NeedAndProjectTypeSuffice` | app/services/order_classification.py:232-240 | A clean fresh message that needs a known project type always becomes an order; without type, budget, contact and deadline it never does |
| `OrderClassification.OrderExistsIffGatePasses` | app/services/order_classification.py:203-224 | After a classification an order row exists exactly when the decision passes, other orders are untouched, and the message is then clean |
| `OrderClassification.StoredOrderIs` | app/services/order_classification.py:243-270 | The classification row and the fields of the order that a step leaves: fresh exactly when at most so many days old when stored; group and notification time kept, the version counted |
| `OrderClassification.ProjectTypeIsTheFirst` | app/services/order_classification.py:273-283 | The project type of an order is that of the first such entity with a value |
| `OrderClassification.OrdersOverRuns` | app/services/order_classification.py:184-224 | Over every run, each message has at most one classification and each order one that qualifies and gave its relevance |
| `OrderClassification.ClassifyingAgain` | app/services/order_classification.py:220-224 | Classifying again changes the version and returns the status to new, nothing else |
| `OrderClassification.OrderClassifier.PersistClassification` | app/services/order_classification.py:184-200 | The rows of the message are replaced by one |
| `OrderClassification.OrderClassifier.PersistOrder` | app/services/order_classification.py:203-224 | Deleted, inserted or updated by the gate; an update keeps group and notification time and counts the version |
| `OrderClassification.OrderClassifier.ClassifyMessage` | app/services/order_classification.py:77-110 | The tables are those of the model, and the result tells whether there is an order |
| `DictionaryCache.BoundedStaleness` | app/services/dictionaries.py:32-47 | Over every interleaving, with invalidations lost, a list served is what the database held at most TTL plus the load-to-store gap before |
| `DictionaryCache.StepKeepsInv` | app/services/dictionaries.py:84-117 | Each commit, invalidation, hit, miss, load and store keeps this |
| `DictionaryCache.ServesOnlyCurrentIffFresh` | app/services/dictionaries.py:32-47 | Until the next commit only current rules are served exactly when neither the cache nor a loading reader holds older ones |
| `DictionaryCache.AfterInvalidation` | app/services/keywords.py:113-124 | A commit with its invalidation suffices exactly when no reader is holding older rules |
| `DictionaryCache.StoredIsServedForTtl` | app/services/dictionaries.py:84-107 | What a reader stores is served exactly until its seconds are over, and then read anew |
| `DictionaryCache.Dictionaries.InvalidateDictionaryCache` | app/services/dictionaries.py:109-117 | Both lists are dropped, or neither when Redis is down |
| `DictionaryCache.Dictionaries.LoadKeywordRules` | app/services/dictionaries.py:32-47 | A read is a run of the model, a hit or else a miss, a load, the delay and a store, and the list it returns is served by that run within the bound on staleness |
| `DictionaryCache.Dictionaries.CommitDictionaryChange` | app/services/keywords.py:107-124 | A duplicate changes nothing; a write is a commit of its kind in the model and, unless Redis is down, an invalidation of both kinds |

## Left out

- Telethon, aiogram, Celery, Redis and SQL transport, card rendering, metrics, audit log, the API and the frontend: foreign systems or easy members; what they answer is an input.
- Regular expressions, Unicode normalization and case folding: their outcomes are free inputs, and the search lemma holds for every folding.
- sha256 and JSON: payloads and keys are compared before hashing; content hashes and fingerprints are strings of their own.
- Semantic deduplication (app/services/deduplication.py:77-142) and the manual regrouping operations: the semantic layer is switched off.
- The similarity recorded with a duplicate group: it does not enter a decision.
- Recipient resolution and the predicate that matches a subscription with an order: each recipient comes with its first matching subscription or none.
- Order deletion with its deliveries, and the status reset on classification, inside notification runs: those runs delete no order.
- A crash between an accepted message and its commit, and overlapping jobs other than the stale sweep: runs are serial.
- Deliveries refer to a whole subscription instead of its id, so edits of a subscription after a deferral are not seen by later lemmas.
- Time zones with daylight saving, and parsing of HH:MM: offsets are constant and clock times parsed.
- Sources without a username, media, forwards, raw payloads and the content hash of a message: functions of the snapshot that add no case.
- The order in which processing jobs are enqueued to Celery, and jobs lost when the process dies after its commit.
- FloodWait bookkeeping of accounts, and pauses that source validation sets: only those a collection sets are modelled.
- NoEarlyRetries: the requests of one collection are made at one instant, resolving the entity and iterating its messages are one request, and Telegram's waits are per source rather than per account and method.
- ReadIsInjective: the pattern also takes other Unicode digits and a final newline, and such a name reads as the same month as its ASCII form; names are ASCII without a final newline here.
- Leases of several Redis servers and clock drift between them: one server, one clock.
- The session opened and the account chosen inside a collection: they enter as an optional account.
- Names of partitions are read into what the code distinguishes; rows in the default partition that block creating a month, and other DDL errors, are not modelled.
- PartitionMaintenance.EnsureUpTo: the last month of the year 9999 fails like any step beyond the calendar.
- LevenshteinAtMostOne: strings are sequences of code points without surrogates, as Python's are.
- SplitIgnoresOrder: holds when label, hash and text determine an example, which loading a dataset guarantees; ties of that key would keep the input order.
- HoldoutCount: the product with the ratio is exact, while the code's is a float.
- OrderLabelIff: scores are exact reals, while the code adds floats; freshness, budget and contact extraction enter as facts.
- ClassifyMessage: a freshness period of zero days raises in the rules before anything is stored, and is one result here.
- PersistOrder: does not model title, summary, budget, deadline and contacts of the row, copies of extracted entities that enter no decision here.
- OrderExistsIffGatePasses: the cleanliness of the message is stated for a positive relevance threshold.
- AddMonthsIsAnAction: a composition needs its first move to stay within the calendar, as the code raises otherwise.
- CooldownSeparatesSimilarSends: fingerprints of orders stay as they are during the run.
- SlidingWindowRateLimit: bounds immediate sends only; WindowsHoldIffSweepsDo says when both kinds together are bounded.
- CandidatesAre: the start of the window is an input; the code takes it from the clock and the days of freshness.
- GroupingOverRuns: order fields are fixed, orders are in the window, equal contents have equal fingerprints and grouped orders are seen; without the window and the last the two counterexamples apply.
- API role checks, CRUD, the status-transition table, training and evaluation of the model: easy or outside this model.
