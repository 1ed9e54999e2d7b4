# Verification of the event pipeline and the SECS/GEM event-report protocol

This Dafny project models the stateful core of the middleware and of its equipment
simulators, and proves what that core promises. `dafny verify dfyconfig.toml` checks it.

Each algorithm that works by changing state is a class or a method with loops, proved equal
to a specification function of the state before; the properties over runs, interleavings
and crashes are lemmas about those functions.

## What is modelled

- **CSV lot writer over the ingress journal** (`CsvStore`, `CsvAccounting`, `CsvOperations`,
  `CsvFiles`, `CsvBalance`, `CsvLedger`, `CsvExpansion`, `CsvLots`, `CsvWriter`, `Journal`). The writer's
  memory is five maps: open lot buffers, rows waiting for a lot, references held per journal
  entry, drop reasons and write failures. Every operation gives the new memory and the durable
  calls it makes, in order; the disk is a log of written files, the journal a table, the mirror
  queue a set of tasks. A crash keeps any prefix of the calls and wipes the memory. Only the
  local file write can fail.
- **Network-mirror queue** (`MirrorQueue`): tasks leased to workers that may die.
- **Event-report subscription** (`Equipment`, `Subscription`, `SubscriptionPlan`,
  `NexgenSubscription`, `SubscriptionManager`, `Bands`): SEMI E5 Stream 2, functions 33 to 38. The host sends over a
  line on which any message may be answered, refused as a whole or left without a reply,
  handled or not, to the base equipment or to the NexGen tool.
- **Durable outbox and its publish loop** (`Outbox`, `Publisher`): producers, one worker,
  retention, requeueing and kills interleaved step by step. The loop of
  eap_middleware/legacy_api.py is the same consumer with a limit of 50 and no undeliverable
  outcome.
- **Equipment spool** (`Spool`): one producer and one drain worker, lost acknowledgements,
  overwriting and purging.
- **Session generations** (`Session`, `SessionAttempts`): starts, stops, connections and provisioning workers
  interleaved at the granularity of lock regions and single reads.
- **Alarm limiter** (`AlarmLimiter`), **storage monitor** (`StorageMonitor`), **job tracker**
  (`JobTracker`, `TrackerEvents`), **lot generator** (`LotGenerator`), **SPTS identifiers** (`SptsIds`).
- `Wrappers.dfy` holds what several modules share: options, counting, powers of two.

## Assumptions

- SHA-256 is injective: an identity is the tuple it digests.
- Time is a parameter. It never goes back where a lemma says so (`Orderly`,
  `ClockMovesForward`); each operation reads the clock once.
- The order in which a dictionary is walked is a parameter, any order that lists its keys.
- Written files have distinct names. Journal and queue calls succeed and are atomic.
- A fixed spool limit of at least one, one live drain worker and one publish worker. Starts of
  one session may overlap; what that costs is `Session.BrokenOrderCrosses`.
- Percentages and times are real numbers.

## What the code does and its documentation does not say

- An entry that expands to two rows can be marked done with one row only in memory
  (`CsvExpansion.ExpandedEntryIsResolvedEarly`). The appends that do it are exactly those of
  `CsvBalance.ResolvedEarlyExactly`, and over runs a done entry has all its rows on disk
  exactly under the condition of `CsvExpansion.DoneHasAllRowsExactly`.
- Dead-lettering counts failures of every kind, where the comment at
  eap_middleware/linkstuffs_http.py:267-275 speaks of five consecutive permanent ones
  (`Publisher.DeadExactlyWhen`, `Publisher.OnePermanentFailureCanBeEnough`), and a requeued
  row has one chance (`Publisher.RequeuedRowHasOneChance`).
- The repository README (README.md, line 143) promises a safe stop when configured reserves
  are crossed; only the filesystem with the least percentage is judged (`StorageMonitor.CriticalExactlyWhen`,
  `StorageMonitor.ByteReserveCanBeMissed`).
- A carrier that has left can still own a wafer, lot or chamber if its own unload event names
  one (`JobTracker.UnloadLeavesNothingExactly`, `JobTracker.CompletedCassetteStaysBound`),
  against eap_middleware/job_tracker.py:115-117.
- A named chamber is not given an active port as a guess, but it can be given an earlier guess
  that has become a binding (`JobTracker.GuessAnswersForAChamber`): exactly the events of
  `JobTracker.GuessedExactly` store one, each is then given out
  (`JobTracker.GuessAnswersNamedChambers`), and without them ports are stated ones
  (`JobTracker.WithoutGuessesPortsAreStated`).
- Two overlapping starts of a session can leave the newer generation's workers acting on the
  older one's host (`Session.OverlappingStartsCross`): exactly when the older start installs its
  host after the newer host was enabled (`Session.ActionsStayInTheirGeneration`,
  `Session.BrokenOrderCrosses`).
- The reset before subscribing is skipped when the link is down at one check
  (`Session.ResetCanBeSkipped`; exactly then, by `Session.ResetHappensExactly`).
- A purge while the drain is about to transmit breaks delivery order
  (`Spool.EveryPurgeUnderTheDrainCanReorder`), a purge at any other time does not
  (`Spool.DeliveryInOrder`).
- Band derivation accepts a link to a report nobody configured (`Bands.NobodysReportIsDerived`,
  `Bands.BandedExactlyWhenConfigured`). After a reset the tool then refuses that band and no
  other (`Subscription.AcceptedExactlyWhenConfigured`); without one the link is accepted if a
  leftover definition has the report (`Subscription.LinksAcceptedExactly`).
- The NexGen tool's refused band can be reported accepted and stay silent
  (`NexgenSubscription.AcceptedButSilent`; exactly which bands are accepted and which events
  are sent is `NexgenAcceptsExactly` and `Subscription.AcceptedBandsAreSent`).
- An id with the OFF bias but not the ON bias also decodes while its offset is below 10000
  (`SptsIds.DecodesExactly`).

## Model

| member | source | states |
|---|---|---|
| `CsvLedger.LedgerOverRuns` | eap_middleware/csv_store.py:181-271 | over every crash-free run of accepts, appends, flushes, evictions, failed writes, marks, purges and mirror copies, a one-row entry is in exactly one place: pending (its one row in memory, or replayable) and in no file, in exactly one row of one written file and done, dropped with a reason, or skipped; an accepted entry no longer in the journal is not held, and was in one of the last three places when it left |
| `CsvLedger.HeldIsNeverPurged` | eap_middleware/journal.py:654-669 | after any run, crashes and replays included, a one-row entry that a row in memory stands for survives every purge unchanged |
| `CsvLedger.CrashSafetyOverRuns` | eap_middleware/csv_store.py:425-478 | whatever dies between any two durable calls, an entry marked done has its row in a file on disk, and a network copy of that file, when due, is queued or made |
| `CsvLedger.NoCrashLosesARow` | eap_middleware/csv_store.py:410-481 | over every run with crashes, an accepted one-row entry still journaled is pending with its one row in memory, replayable, done with its row on disk, dropped with a reason, or skipped; one no longer journaled left the journal from one of the last three |
| `CsvLedger.LeavesFinished` | eap_middleware/journal.py:654-669 | over every run with crashes, for entries of any number of rows, an accepted entry that is gone from the journal was called done, dropped or skipped when it left |
| `CsvLedger.AnyPrefixIsSafe` | eap_middleware/csv_store.py:425-478 | cutting the durable calls of an operation after any one of them leaves every done entry with its row on disk |
| `CsvLedger.WriteBacked` | eap_middleware/csv_store.py:425-478 | the calls of a lot write come in the order file, mirror task, journal marks: every done mark has the file, and the task if due, before it |
| `CsvLedger.CountsOverRuns` | eap_middleware/csv_store.py:237-271 | after any run, crashes included, the reference count of every entry, expanded or not, equals its rows in all buffers and waiting lists; drop markers exist only for counted entries; no key has both a buffer and waiting rows |
| `CsvBalance.WriteResolvesExactly` | eap_middleware/csv_store.py:242-271 | writing a lot marks an entry done exactly when that buffer holds all of its rows in memory and none was discarded |
| `CsvBalance.ResolvedEarlyExactly` | eap_middleware/csv_store.py:214-231 | from any state, an append marks its own entry done while its new row is in memory exactly when it changes the lot of its port over an old lot that has the last rows of the entry, none of them discarded, and can be written, and does not also close the new lot in a file that can be written |
| `CsvBalance.FlushMachineSettles` | eap_middleware/csv_store.py:298-319 | a machine flush: rows held before = rows held after + written + let go, for entries of any number of rows; an entry is marked at most once, only if rows of it were written and none is held any more, so rows let go bring no mark; without rows let go the last row to leave does |
| `CsvBalance.EvictSettles` | eap_middleware/csv_store.py:483-514 | an eviction lets go exactly the rows of the buffer and makes no mark |
| `CsvBalance.UpToTheRowKeeps` | eap_middleware/csv_store.py:195-219 | before its row joins, an append discards exactly the expired waiting rows and may write the old lot; rows balance and a mark means the last held row was written or discarded |
| `CsvBalance.PastTheRowSettles` | eap_middleware/csv_store.py:205-232 | after its row has joined, an append writes the closed lot, evicts the over-long one or discards the one row past the cap; rows balance and a mark means the last held row was written or discarded |
| `CsvBalance.AppendParts` | eap_middleware/csv_store.py:181-233 | an append is the part before its row, the row, and the part after it; a failed lot-change write ends it before the row |
| `CsvExpansion.RowsBalanceOverRuns` | eap_middleware/csv_store.py:181-319 | over every run with crashes, for entries of any number of rows: given to the writer = written + held + discarded + let go + lost in a crash before being written; without a crash none is lost |
| `CsvExpansion.DoneHasAllRowsExactly` | eap_middleware/csv_store.py:214-271 | over every run with crashes, a done entry has all the rows the writer was given in files exactly when none was given after (or by the append of) its last mark, none was discarded, none was let go and none was lost in a crash |
| `CsvExpansion.DoneIsHeldOnlyLate` | eap_middleware/csv_store.py:214-271 | a done entry that is held was given rows after its last mark, and as long as none of its rows is let go such rows keep it held |
| `CsvExpansion.LettingGoLeavesReplayable` | eap_middleware/csv_store.py:302-318 | after any run, crashes included, an operation that neither writes nor discards a row of a pending entry leaves it pending, and free to be replayed exactly when none of its rows is held: so after an eviction, or a machine flush, of its last rows |
| `CsvExpansion.EarlyAppendLeavesDone` | eap_middleware/csv_store.py:214-231 | an append that meets the condition leaves the journal row done and the entry held |
| `CsvExpansion.ExpandedEntryIsResolvedEarly` | eap_middleware/csv_store.py:214-231 | two rows of one message that name two lots of one port: after the second the journal calls the entry done while that row is only in memory, so the ledger cannot be extended to expanded entries |
| `CsvAccounting.HoldsExactly` | eap_middleware/csv_store.py:163-169 | `holds` is true exactly when some row of the entry is in a buffer or waiting list |
| `CsvAccounting.ReleaseCounts` | eap_middleware/csv_store.py:254-265 | a release lowers the count of each entry by its occurrences in the released list and removes it at zero |
| `CsvAccounting.ReleaseResolves` | eap_middleware/csv_store.py:258-271 | a release resolves an entry exactly when its last held row goes: dropped if that row or an earlier one was discarded, done otherwise; until then a discarded row leaves a marker |
| `CsvAccounting.TrackKey` | eap_middleware/csv_store.py:237-240 | tracking a row that has joined one key makes the count of every entry right again |
| `CsvOperations.AppendKeeps` | eap_middleware/csv_store.py:181-233 | an append keeps every reference count equal to the rows held; an entry of at most one row is written as often as it is marked done, and is resolved at most once and not while held |
| `CsvOperations.FlushMachineKeeps` | eap_middleware/csv_store.py:298-319 | a machine flush keeps every reference count equal to the rows held, and marks a one-row entry done exactly as often as it writes it |
| `CsvOperations.FlushKeysKeeps` | eap_middleware/csv_store.py:277-280 | a flush keeps the counts even when a failed write ends it half way |
| `CsvOperations.EvictKeeps` | eap_middleware/csv_store.py:483-514 | an eviction keeps the counts and resolves nothing |
| `CsvOperations.Promotion` | eap_middleware/csv_store.py:321-341 | opening a buffer moves exactly the waiting rows that survive pruning into it, oldest first, and empties the list |
| `CsvOperations.WaitingKeepsTheNewest` | eap_middleware/csv_store.py:196-212 | of a port's waiting rows, the new one last, exactly the expired head and the oldest past the cap go |
| `CsvStore.CallingAgainAddsTheRow` | eap_middleware/csv_store.py:214-233 | the self-call after a lot change finds a buffer of the new lot and only adds the row |
| `CsvFiles.FlushWritesExactly` | eap_middleware/csv_store.py:277-291 | from memory and the disk alone, for distinct keys: a flush writes one file for each listed lot with rows, in order, up to the first whose file the disk refuses, and queues a copy of each when its machine has a network folder; it raises exactly when there is such a lot; the lots before it are closed, it and every later or unlisted one stay as they were, and its failure is counted |
| `CsvFiles.FlushAllClosesEverything` | eap_middleware/csv_store.py:277-291 | a flush of every open lot that does not raise leaves none open and has written every one with rows |
| `CsvFiles.FlushMachineExactly` | eap_middleware/csv_store.py:298-319 | given the endpoint's keys, a machine flush that does not raise writes every lot of the endpoint with rows and leaves no lot, waiting row or failure count of it; one that raises keeps the refused lot, the later ones and every waiting row; every other endpoint is untouched either way |
| `CsvFiles.AppendWritesExactly` | eap_middleware/csv_store.py:181-233 | from memory and the disk alone, every append: an event that is no lot event changes nothing; one that waits writes and opens nothing; any other writes the old lot first when it names another, ends there if the disk refuses it, adds its row to the lot it finds or opens, writes that lot when it closes it, and leaves on its port exactly the lot stated; other ports are untouched |
| `CsvFiles.WriteBufferExactly` | eap_middleware/csv_store.py:410-481 | one lot file: all rows with their entries, partial exactly when the lot has not ended and the reason is one of the four kinds of stopping; a copy is queued exactly when there is a network folder |
| `CsvFiles.ExpiredExactly` | eap_middleware/csv_store.py:349-371 | what expires is exactly the rows at the head older than the limit, up to the first that is not |
| `CsvFiles.WaitingSaysWhy` | eap_middleware/csv_store.py:196-212 | a row that may not wait is dropped with the reason of its expiry, or as the oldest past the cap |
| `CsvLots.OneLotPerFile` | eap_middleware/csv_store.py:193-233 | over every run with events numbered on arrival, every file holds rows of one load port and at most one non-empty lot, in arrival order; every waiting list is within its cap |
| `CsvLots.AppendOrders` | eap_middleware/csv_store.py:193-233 | one append keeps every buffer a single port and lot in arrival order, promoted rows first, and files only such buffers |
| `CsvLots.RowLimitAfterAppend` | eap_middleware/csv_store.py:229-232 | after an append that returns normally a port with a recorded write failure is within its row limit |
| `CsvWriter.PerLotCsvWriter.Track` | eap_middleware/csv_store.py:237-240 | the entry is held afterwards, and if every count was right before a row of it joined a buffer or waiting list, every count is right again |
| `CsvWriter.PerLotCsvWriter.Release` | eap_middleware/csv_store.py:242-271 | loop and marks equal the specified release |
| `CsvWriter.PerLotCsvWriter.Forget` | eap_middleware/csv_store.py:501-513 | references are dropped without resolving anything |
| `CsvWriter.PerLotCsvWriter.PrunePreLot` | eap_middleware/csv_store.py:343-371 | expired waiting rows leave oldest first and are released as dropped |
| `CsvWriter.PerLotCsvWriter.GetBuffer` | eap_middleware/csv_store.py:321-341 | an open buffer is returned as it is; a new one takes over the waiting rows |
| `CsvWriter.PerLotCsvWriter.WriteBuffer` | eap_middleware/csv_store.py:410-481 | a failed file leaves everything but the failure counter; a written one is followed by mirror task and release |
| `CsvWriter.PerLotCsvWriter.WriteAndRemove` | eap_middleware/csv_store.py:401-408 | the buffer goes only after its file was written |
| `CsvWriter.PerLotCsvWriter.EvictBuffer` | eap_middleware/csv_store.py:483-514 | the buffer goes and its entries stay unresolved |
| `CsvWriter.PerLotCsvWriter.AppendToWaiting` | eap_middleware/csv_store.py:196-212 | the row joins the waiting list, the oldest is dropped past the cap |
| `CsvWriter.PerLotCsvWriter.AppendToOpen` | eap_middleware/csv_store.py:221-233 | the row joins the buffer, a closing event writes it, an over-long failed one is evicted |
| `CsvWriter.PerLotCsvWriter.OpenLot` | eap_middleware/csv_store.py:214-219 | a lot change writes the old buffer and opens a new one |
| `CsvWriter.PerLotCsvWriter.AppendToLot` | eap_middleware/csv_store.py:214-233 | a row that belongs to a lot: lot opened or changed, then the row added |
| `CsvWriter.PerLotCsvWriter.Append` | eap_middleware/csv_store.py:181-233 | the whole append equals the specified one, state, durable calls and exception |
| `CsvWriter.PerLotCsvWriter.FlushAll` | eap_middleware/csv_store.py:277-291 | the loop writes every lot with rows, in order, up to the first refused file; when nothing is refused no lot is left open and the calls are one file for each (and its copy) |
| `CsvWriter.PerLotCsvWriter.FlushSnapshot` | eap_middleware/csv_store.py:279-280 | for distinct keys, the loop writes and closes exactly the listed lots before the first whose file is refused, and leaves every other as it was |
| `CsvWriter.PerLotCsvWriter.FlushMachine` | eap_middleware/csv_store.py:298-319 | given the endpoint's keys, its lots are written in order and, unless one is refused, nothing of it is left: no lot, waiting row or failure count; other endpoints are untouched |
| `Journal.IdentityExactly` | eap_middleware/journal.py:68-107 | two messages have one identity exactly when endpoint, stream, function, CEID and system bytes agree and so does the payload: all of it without system bytes, all but its arrival stamps with them |
| `Journal.AppendAnswers` | eap_middleware/journal.py:311-400 | a message is new exactly when the latest row of its identity is of another generation and outside the window; the new row has a key no stored row has, both arrivals now, dispatch pending, the csv status asked for and no reason; a repeat moves only the last arrival of the latest row |
| `Journal.InsertNeverClashes` | eap_middleware/journal.py:351-377 | the insert never meets an existing unique key, whatever clock and generations do |
| `Journal.KeyedOverRuns` | eap_middleware/journal.py:288-400 | over every run, purging and marks included, keys are unique and name their own row's identity |
| `Journal.SourcedOverRuns` | eap_middleware/journal.py:361-374 | every stored row comes from an accept of the run |
| `Journal.DeduplicationOverRuns` | eap_middleware/journal.py:326-349 | with nondecreasing clock and generations, two stored rows of one identity differ in generation and lie more than the retry window apart |
| `Journal.StoryOverRuns` | eap_middleware/journal.py:361-374 | over every run, an entry stays stored exactly until a purge finds it finished for both sinks and older than retention; while stored it is what was accepted, its dispatch pending or the last status set since, its csv status that of its accept or of the last mark since, its reason the last one given |
| `Journal.StoredIsCreated` | eap_middleware/journal.py:311-400 | every stored row was stored by an accept of the run |
| `Journal.FinishedForAReason` | eap_middleware/journal.py:455-532 | a stored entry is called dispatched only if an operation since its accept set that status, and its csv status differs from its accept's only if a mark since did |
| `Journal.IngressJournal.Accept` | eap_middleware/journal.py:311-400 | the transaction answers and leaves what `AppendAnswers` says, and keeps keys unique |
| `Journal.IngressJournal.MarkDone` | eap_middleware/journal.py:491-499 | exactly the listed entries become csv-done |
| `Journal.IngressJournal.MarkDropped` | eap_middleware/journal.py:501-508 | the loop makes every listed row, and no other, csv-dropped, its reason a prefix of the given one of at most 1000 characters, every other column as it was; no row appears or goes |
| `Journal.IngressJournal.Purge` | eap_middleware/journal.py:654-669 | exactly the rows stay that are pending for a sink or not older than retention, unchanged |
| `MirrorQueue.OneWorkerPerTask` | eap_middleware/journal.py:593-652 | over all interleavings of workers, deaths and failures, as long as no due task is offered while a copy of it that has outlived its lease is in a worker's hands, no task is in two workers' hands |
| `MirrorQueue.OutlivedLeaseIsShared` | eap_middleware/journal.py:606-618 | from any run that was in time, a due task offered over an outlived lease is claimed a second time at once |
| `MirrorQueue.ExclusiveExactly` | eap_middleware/journal.py:593-652 | a run keeps every task in one pair of hands throughout if and only if no due task is offered over an outlived lease |
| `MirrorQueue.NoCopyIsLost` | eap_middleware/journal.py:571-652 | whatever dies, every recorded copy is queued, made, or given up because its source was gone |
| `MirrorQueue.CopyIsQueuedOnce` | eap_middleware/journal.py:571-591 | over every run a copy is queued once at most |
| `MirrorQueue.FailedCopyWaits` | eap_middleware/journal.py:635-652 | after any run, a failed copy counts one more failure, is free for any worker and is due again exactly once its delay is over; other tasks are untouched |
| `MirrorQueue.BackoffDoubles` | eap_middleware/journal.py:642-646 | the delay is five seconds after the first failure, doubles with each and is cut at 300 |
| `MirrorQueue.BackoffBounds` | eap_middleware/journal.py:638-645 | the retry delay is between 5 and 300 seconds and never shrinks |
| `Subscription.SetupPutsEverythingInPlace` | gateway/event_subscription.py:446-544 | from any leftover tool state, reset or not, with unique identifiers, non-empty reports and every linked report in its event's band, every report ends defined exactly, every event with reports linked exactly and every enabled event enabled |
| `Subscription.ResetAndSetupIsExact` | gateway/event_subscription.py:387-544 | with a reset first and a cooperative tool, any leftover state ends with exactly the configured reports, links and enabled events and no others |
| `Subscription.AcknowledgedResetStartsClean` | gateway/event_subscription.py:387-444 | after an acknowledged reset either tool holds nothing the configuration does not list, whatever becomes of the bands |
| `Subscription.AcceptedBandsAreInPlace` | gateway/event_subscription.py:446-544 | with either tool, which may refuse any message, and a line that may lose any reply, every band reported accepted is fully in place at the end (an enabled event of the NexGen tool's refused band counts as it is); outside the reset no message deletes or disables wholesale |
| `Subscription.AcceptedBandsAreSent` | gateway/event_subscription.py:446-544 | with either tool and any line, an enabled event of a band reported accepted is sent at the end exactly when the tool does not refuse its band |
| `Subscription.BandStep` | gateway/event_subscription.py:486-509 | one band touches only its own reports, links and enables, and is in place if it is accepted |
| `Subscription.OthersStayInPlace` | gateway/event_subscription.py:260-273 | a band's own messages leave every other accepted band in place |
| `Subscription.ReliableBand` | gateway/event_subscription.py:152-227 | with replies and a cooperative tool a band is accepted, through delete and redefine after DRACK 3 when needed |
| `Subscription.BandOrderExactly` | gateway/event_subscription.py:368-385 | the bands are exactly those some report or event names |
| `Subscription.LinksAcceptedExactly` | gateway/event_subscription.py:229-302 | when its reply arrives, a link message is accepted exactly if every report it names is defined at the tool |
| `Subscription.AcceptedExactlyWhenConfigured` | gateway/event_subscription.py:387-544 | with a reset first and a cooperative tool, exactly those bands are accepted all of whose linked reports are configured |
| `SubscriptionPlan.BandFollowsItsPlan` | gateway/event_subscription.py:152-366 | with either tool and any line: for each band the host sends a fixed plan (define; on code 3 delete and define again; link what has reports; enable what is enabled) up to the first message not acknowledged, and the band is accepted exactly when all of it was |
| `SubscriptionPlan.RefusedAtOnce` | gateway/event_subscription.py:186-217 | a band whose first S2F33 is answered with a code other than 0 and 3, or not at all, is refused after that one message, and the tool is as it was unless it handled a message whose reply was lost |
| `SubscriptionPlan.DeletesOnCollisionExactly` | gateway/event_subscription.py:192-210 | a deletion is among the messages of a band exactly when its first S2F33 was answered with code 3 |
| `SubscriptionPlan.SilenceIsNeverAccepted` | gateway/event_subscription.py:554-591 | no message of an accepted band was left without a reply |
| `SubscriptionPlan.BandsAttemptedExactly` | gateway/event_subscription.py:486-511 | exactly the bands before the first stop have a verdict, and the sequence is abandoned exactly when there is one |
| `SubscriptionPlan.VerdictIsTheBands` | gateway/event_subscription.py:486-511 | the verdict on a band is that of setting it up on the line the bands before it left |
| `SubscriptionPlan.ResetSentExactly` | gateway/event_subscription.py:475-484 | a message for everything is sent exactly when a reset was asked for and the session is still current |
| `NexgenSubscription.NexgenBandExactly` | simulator/nexgen_mg_simulator.py:368-493 | one band against the NexGen tool over a line that loses nothing, from any leftover state: accepted exactly when it names no report and links no event of the refused band and links only defined reports |
| `NexgenSubscription.NexgenAcceptsExactly` | simulator/nexgen_mg_simulator.py:368-493 | all bands in sequence, from any leftover state, reset or not: exactly those of which the tool refuses neither a report nor a linked event are accepted |
| `NexgenSubscription.AcceptedButSilent` | simulator/nexgen_mg_simulator.py:458-493 | from any leftover state, a configuration of one enabled event of the refused band without reports: its band is reported accepted and the event is not sent |
| `SubscriptionManager.GatewayHost.SendAndWait` | gateway/event_subscription.py:554-591 | one exchange: the tool's state and the ack code, -1 without a reply |
| `SubscriptionManager.EventSubscriptionManager.Define` | gateway/event_subscription.py:152-227 | the define step of the band, which deletes and redefines after DRACK 3 only (`SubscriptionPlan.DeletesOnCollisionExactly`) |
| `SubscriptionManager.EventSubscriptionManager.Link` | gateway/event_subscription.py:229-302 | links are sent for events with reports only |
| `SubscriptionManager.EventSubscriptionManager.Enable` | gateway/event_subscription.py:304-366 | only enabled events are sent, and nothing when there are none |
| `SubscriptionManager.EventSubscriptionManager.Reset` | gateway/event_subscription.py:387-444 | disable all, unlink all, delete all, each tried whatever the others answered |
| `SubscriptionManager.EventSubscriptionManager.Bands` | gateway/event_subscription.py:368-385 | bands in order of first mention, reports before events |
| `SubscriptionManager.EventSubscriptionManager.OneBand` | gateway/event_subscription.py:494-500 | define, link and enable, each only after the one before |
| `SubscriptionManager.EventSubscriptionManager.RunBands` | gateway/event_subscription.py:486-509 | bands in order until the session is no longer current, one verdict for each band attempted |
| `SubscriptionManager.EventSubscriptionManager.Setup` | gateway/event_subscription.py:446-544 | the sequence equals the specified one; it reports success exactly when some band was accepted |
| `Bands.ApplyBands` | scripts/gen_davinci_full_subscription.py:111-155 | returns normally exactly when no report is linked from two bands and none is orphaned; then no event is linked to a report of another band |
| `Bands.DeriveEvents` | scripts/gen_davinci_full_subscription.py:128-140 | every event gets its band, every linked report a band of an event linking it, and a conflict is reported exactly when some report is linked across bands |
| `Bands.AbsorbEvent` | scripts/gen_davinci_full_subscription.py:131-137 | the reports of one event join the table, and disagreement with an earlier event is found |
| `Bands.ClashSnoc` | scripts/gen_davinci_full_subscription.py:126-140 | comparing with the first band recorded for a report finds every clash |
| `Bands.BandedExactlyWhenConfigured` | scripts/gen_davinci_full_subscription.py:128-151 | the derived bands meet the condition of the end-to-end theorem exactly when every linked report is configured, which the script does not check |
| `Bands.NobodysReportIsDerived` | scripts/gen_davinci_full_subscription.py:111-155 | one event linked to a report nobody configured: its band is derived without complaint, is one of the bands, and is not banded |
| `Equipment.EnableRefinesASet` | simulator/equipment.py:513-539 | the enable fields refine a plain set of CEIDs under all, none, union and difference |
| `Equipment.NeverDangling` | simulator/equipment.py:351-470 | after any messages every report an event is linked to is defined |
| `Equipment.NackChangesNothing` | simulator/equipment.py:389-390 | a nonzero define or link ack leaves the tool as it was |
| `Equipment.UnlinkedExactly` | simulator/equipment.py:391-398 | deleting reports takes exactly those out of every link, keeps the order of the rest and drops no link |
| `Equipment.NeverRedefines` | simulator/equipment.py:388-398 | whatever it is sent, the base tool never changes a report it has: the report stays as it is or goes |
| `Equipment.CollisionExactly` | simulator/equipment.py:388-390 | a define is answered with code 3 exactly when it lists variables for a report the tool has, and with 0 otherwise |
| `Equipment.NexgenNeverDangling` | simulator/nexgen_mg_simulator.py:368-456 | the same for the NexGen tool, refused bands included |
| `Equipment.NexgenNackChangesNothing` | simulator/nexgen_mg_simulator.py:368-456 | a refusal changes nothing, and a delete-all deletes all |
| `Equipment.NexgenUnlinkedExactly` | simulator/nexgen_mg_simulator.py:402-415 | here too exactly the deleted reports go from every link, and a link goes exactly with its last one |
| `Equipment.RefusedBandStaysSilent` | simulator/nexgen_mg_simulator.py:458-493 | after any S2F37 a refused band sends nothing and is absent from the read-back; every other event follows the plain set |
| `Equipment.EquipmentSimulator.OnS2F33` | simulator/equipment.py:351-402 | define, delete, delete all, or DRACK 3 without any change |
| `Equipment.EquipmentSimulator.DefineItems` | simulator/equipment.py:391-398 | the loop defines or deletes every listed report, deletions taking it out of every link |
| `Equipment.EquipmentSimulator.OnS2F35` | simulator/equipment.py:404-470 | link, unlink, unlink all, or LRACK 3 without any change |
| `Equipment.EquipmentSimulator.OnS2F37` | simulator/equipment.py:472-546 | the four fields after the command |
| `Equipment.NexGenMgSimulator.OnS2F33` | simulator/nexgen_mg_simulator.py:368-416 | the override, with whole-message refusal and links dropped with their last report |
| `Equipment.NexGenMgSimulator.DefineParsed` | simulator/nexgen_mg_simulator.py:402-415 | the same loop, dropping a link that loses its last report |
| `Equipment.NexGenMgSimulator.LinkParsed` | simulator/nexgen_mg_simulator.py:448-455 | every listed event is linked as listed, or unlinked by an empty list |
| `Equipment.NexGenMgSimulator.OnS2F35` | simulator/nexgen_mg_simulator.py:418-456 | the override, with whole-message refusal of a band |
| `Equipment.NexGenMgSimulator.OnS2F37` | simulator/nexgen_mg_simulator.py:458-493 | the override, with the refused band taken out |
| `Equipment.NexGenMgSimulator.Sends` | simulator/nexgen_mg_simulator.py:528-536 | an event is sent exactly when it is enabled and not refused |
| `Publisher.FifoOverRuns` | eap_middleware/linkstuffs_http.py:255-296 | over all runs of producers, retention, one worker and kills, without requeueing: attempts in a partition have nondecreasing ids; once a row has been attempted every older row of its partition is sent, dead or gone; rows in the worker's hands are heads of distinct partitions |
| `Publisher.AccountingOverRuns` | eap_middleware/linkstuffs_http.py:262-290 | over all runs, requeueing included: ids ascend, keys are unique, a sent row was delivered, a dead row failed at least five times and at least once permanently |
| `Publisher.CapOverRuns` | eap_middleware/outbox.py:167-176 | without requeueing no partition holds more pending rows than the cap |
| `Publisher.PendingIsNeverDeleted` | eap_middleware/outbox.py:294-301 | no step deletes a pending row |
| `Publisher.DeadExactlyWhen` | eap_middleware/linkstuffs_http.py:265-283 | a row never delivered is dead-lettered by exactly those visits that fail permanently once all its failures number five |
| `Publisher.PermanentFailureLeavesInFive` | eap_middleware/linkstuffs_http.py:265-283 | a permanently failing head is dead by its fifth visit |
| `Publisher.OnePermanentFailureCanBeEnough` | eap_middleware/linkstuffs_http.py:265-283 | four transient failures and one permanent one are enough, where the comment asks for five consecutive permanent ones |
| `Publisher.RequeuedRowHasOneChance` | eap_middleware/outbox.py:280-292 | a requeued row keeps its count: one more permanent failure kills it again |
| `Publisher.NextHeadAdvances` | eap_middleware/outbox.py:203-212 | the next pending row of a partition becomes its head exactly when the head is delivered or dead-lettered |
| `Publisher.BatchIsSteps` | eap_middleware/linkstuffs_http.py:255-291 | the loop over a batch is a run of the interleaved steps |
| `Publisher.PublishBatch` | eap_middleware/linkstuffs_http.py:255-291 | the loop visits the fetched heads in order with the specified marks; the same policy as eap_middleware/legacy_api.py |
| `Outbox.BatchOfHeads` | eap_middleware/outbox.py:195-233 | a batch holds heads only, in id order, never two of one partition, and at most the limit |
| `Outbox.EveryDueHeadIsFetched` | eap_middleware/outbox.py:195-233 | every due head is in the batch, or the limit was reached with older heads only |
| `Outbox.SelectExactly` | eap_middleware/outbox.py:203-224 | what is selected is exactly the due rows, oldest first |
| `Outbox.EnqueueKeeps` | eap_middleware/outbox.py:153-185 | an enqueue keeps ids ascending and keys unique |
| `Outbox.EnqueueBounds` | eap_middleware/outbox.py:162-176 | it is refused exactly when the key is new and the partition full; otherwise the key is stored |
| `Outbox.NewRowIsDue` | eap_middleware/outbox.py:153-185 | a new key in a partition below its cap is stored last, pending, with no failure, and the first of its partition is fetched at once |
| `Outbox.PurgeKeeps` | eap_middleware/outbox.py:294-301 | exactly the rows stay that are pending, never resolved, or resolved no earlier than the cutoff |
| `Outbox.ResolvedIsPurgedExactly` | eap_middleware/outbox.py:235-301 | a row delivered or given up at a time is purged exactly when the cutoff is past that time |
| `Outbox.RequeueRows` | eap_middleware/outbox.py:280-292 | requeueing changes dead rows only, leaving their attempts |
| `Outbox.RequeueTakesTheOldest` | eap_middleware/outbox.py:280-292 | the oldest dead rows come back, as many as the limit allows |
| `Outbox.BackoffGrows` | eap_middleware/outbox.py:248-252 | the delay never shrinks and is capped at 300 seconds, reached at nine failures |
| `Outbox.BackoffDoubles` | eap_middleware/outbox.py:244-247 | the delay is one second without a failure, doubles with each and is cut at 300 |
| `Outbox.RetryWaitsItsDelay` | eap_middleware/outbox.py:242-260 | a failed head is not fetched again before its delay is over, and is fetched once it is, unless the limit cuts the batch |
| `Outbox.SQLiteOutbox.Put` | eap_middleware/outbox.py:153-185 | the table after an enqueue, and whether it was full |
| `Outbox.SQLiteOutbox.Heads` | eap_middleware/outbox.py:191-233 | the due heads |
| `Outbox.SQLiteOutbox.Sent` | eap_middleware/outbox.py:235-240 | the item is no longer pending, every other pending item still is, no other row changes, and a sound table stays sound |
| `Outbox.SQLiteOutbox.Failed` | eap_middleware/outbox.py:242-260 | every pending item stays pending, no other row changes, and no batch has the item again before the backoff of its new failure count is over |
| `Outbox.SQLiteOutbox.DeadLetter` | eap_middleware/outbox.py:270-278 | the item is no longer pending, every other pending item still is, its failure count stays, and with five failures a sound table stays sound |
| `Outbox.SQLiteOutbox.AttemptsOfItem` | eap_middleware/outbox.py:262-268 | the failure count of the one row with that id, and 0 when there is none |
| `Outbox.SQLiteOutbox.Purge` | eap_middleware/outbox.py:294-301 | exactly the resolved rows older than retention go, every pending item stays and none becomes pending, and a sound table stays sound |
| `Spool.ExactlyOnePlace` | simulator/equipment.py:630-739 | over all interleavings of producer, drain, lost answers, overflow and purges, each produced message is in exactly one place: the producer's hand, the spool, confirmed, overwritten, purged or refused |
| `Spool.SoundOverRuns` | simulator/equipment.py:630-739 | the spool is bounded and in production order, and nothing is confirmed that the host did not receive |
| `Spool.OverwritesTheOldest` | simulator/equipment.py:635-640 | everything overwritten is older than everything still spooled or in the producer's hand |
| `Spool.SpooledForAReason` | simulator/equipment.py:653-676 | over every run, a message is not sent directly only because the spool was not empty or the link down when it was produced, or its own send was not answered |
| `Spool.SpoolsOnlyWhenEnabled` | simulator/equipment.py:630-650 | over every run, a tool that may not spool keeps, overwrites and purges nothing, and one that may refuses nothing |
| `Spool.PurgeTakesAll` | simulator/equipment.py:597-600 | a purge takes every spooled message and touches nothing else |
| `Spool.DeliveryInOrder` | simulator/equipment.py:653-739 | over all interleavings without a purge while the drain is about to transmit, the host receives messages in production order, repetitions after a lost answer included |
| `Spool.PurgeUnderTheDrainReorders` | simulator/equipment.py:597-600 | a purge under a held message lets a newer message overtake it |
| `Spool.EveryPurgeUnderTheDrainCanReorder` | simulator/equipment.py:597-600 | whatever the run so far, once the drain is about to transmit a message a purge can be followed by steps that deliver out of order: the hypothesis of `DeliveryInOrder` is the exact one |
| `Spool.DrainIsSteps` | simulator/equipment.py:678-739 | the drain loop is a run of the drain's steps |
| `Spool.DrainRemovesTheAnswered` | simulator/equipment.py:731-735 | a drain removes the oldest messages, as many as were answered, and no others |
| `Spool.EquipmentSpool.Queue` | simulator/equipment.py:630-651 | the message joins the spool, the oldest leaves a full one, nothing happens with spooling off |
| `Spool.EquipmentSpool.DrainSpooled` | simulator/equipment.py:692-735 | the loop leaves and delivers what the specification says |
| `Session.ActionsStayInTheirGeneration` | eap_middleware/secs_runtime.py:187-310 | over all interleavings of starts, stops, connections and workers in which no start installs its host once the host of the current generation is enabled, every subscription, drain and alarm action goes to the host of the worker's own generation; starts may overlap otherwise |
| `Session.LateInstallCrosses` | eap_middleware/secs_runtime.py:82-108 | whatever the run so far, a start that installs its host over the enabled host of the current generation can be followed by an action of that generation on the other host, for every configuration that acts |
| `Session.BrokenOrderCrosses` | eap_middleware/secs_runtime.py:82-108 | every run that breaks the order of installs goes, from the install that breaks it, on to such an action: the hypothesis is the exact one |
| `Session.ApartIsInOrder` | eap_middleware/secs_runtime.py:82-108 | starts that do not overlap install their hosts in order |
| `Session.AtMostOneActionAfterStop` | eap_middleware/secs_runtime.py:67-71 | after its generation is over a worker begins at most one further action, starts overlapping or not |
| `Session.ActionsInTurn` | eap_middleware/secs_runtime.py:199-310 | a worker's actions strictly ascend: reset, bands attempt by attempt, spool drain, alarms; a reset comes first and once |
| `Session.OverlappingStartsCross` | eap_middleware/secs_runtime.py:82-102 | for every configuration that acts, a run of two overlapping starts from the beginning on which a worker of the newer generation acts on the older one's host |
| `Session.ResetCanBeSkipped` | eap_middleware/secs_runtime.py:200-233 | a run from the start on which a configured reset is skipped because the link is down at one check, and the first band is sent |
| `Session.ResetHappensExactly` | eap_middleware/secs_runtime.py:200-233 | over every run of hosts installed in order, a worker that sends a band has sent its configured reset before it if and only if its link was not down at the check before that reset |
| `SessionAttempts.AttemptEndsExactly` | eap_middleware/secs_runtime.py:199-247 | when an attempt ends (its last band is through, something raised, or a check stopped it) the worker goes on to the drain exactly when a band was accepted and nothing raised, no attempts are left or a stop cut the pause short, and otherwise to the next attempt |
| `SessionAttempts.SettledIsFinal` | eap_middleware/secs_runtime.py:218-247 | over every run, after an attempt that ended that way the worker sends no band and no reset again |
| `SessionAttempts.RetriesHaveAReason` | eap_middleware/secs_runtime.py:217-247 | over every run, a worker is in attempt n + 1, or has sent a band of it, only because its attempt n ended with nothing accepted or something raised, with attempts left and no stop |
| `SessionAttempts.DoneForAReason` | eap_middleware/secs_runtime.py:218-247 | over every run, a worker is done subscribing only because a last attempt ended, the check at the top of the loop stopped it, or it was not to subscribe |
| `SessionAttempts.GoneForAReason` | eap_middleware/secs_runtime.py:244-310 | a worker leaves only when superseded or its host replaced at one of its checks, or after its alarms |
| `SessionAttempts.NoBandIsPassedOver` | eap_middleware/secs_runtime.py:220-240 | over every run, a band of an attempt is sent only after the band before it in that attempt |
| `Session.SecsMachineSession.OpenGeneration` | eap_middleware/secs_runtime.py:82-85 | the locked head of a start |
| `Session.SecsMachineSession.InstallHost` | eap_middleware/secs_runtime.py:96-104 | the generation is no longer opening and its host is installed; the generation invariant behind `ActionsStayInTheirGeneration` is kept unless the current generation's host was enabled |
| `Session.SecsMachineSession.EnableHost` | eap_middleware/secs_runtime.py:105-109 | the host installed by now, whichever start installed it, can report connections; the generation invariant is kept |
| `Session.SecsMachineSession.CloseGeneration` | eap_middleware/secs_runtime.py:114-119 | no generation is current any more, every worker begun is of an earlier generation, and the invariants behind `ActionsStayInTheirGeneration` and `AtMostOneActionAfterStop` are kept |
| `Session.SecsMachineSession.OnConnect` | eap_middleware/secs_runtime.py:169-185 | a worker begins exactly when its generation is current |
| `Session.SecsMachineSession.Current` | eap_middleware/secs_runtime.py:67-71 | at most one generation is current, and if it has connected the installed host is its own |
| `AlarmLimiter.DecidesAsCounting` | eap_middleware/alarms.py:64-76 | with a clock that never goes back the pruned list admits exactly when fewer than the limit of the machine's non-exempt admissions lie in the last window |
| `AlarmLimiter.NoWindowHoldsMore` | eap_middleware/alarms.py:64-76 | no closed interval of window length holds more non-exempt admissions of a machine than the largest limit used |
| `AlarmLimiter.RefusalsAreReported` | eap_middleware/alarms.py:77-111 | refusals equal drained plus undrained, in total and for each alarm id |
| `AlarmLimiter.ExemptExactly` | eap_middleware/alarms.py:53-62 | of the alarms with a byte as code, exactly the clears and the codes 1 and 2, with or without the set flag, are never shed; a set alarm without a numeric code, or no alarm, can be |
| `AlarmLimiter.AlarmRateLimiter.Admit` | eap_middleware/alarms.py:44-81 | exempt alarms pass untouched; the rest are decided and tallied as specified |
| `AlarmLimiter.AlarmRateLimiter.DrainDropDetails` | eap_middleware/alarms.py:98-111 | the report and the cleared buckets |
| `StorageMonitor.AcceptanceReturns` | eap_middleware/storage_safety.py:188-229 | acceptance returns, as normal, only after the last `debounce_samples` turns were readings at or above both recovery thresholds and the integrity check passed |
| `StorageMonitor.ChangeIsDebounced` | eap_middleware/storage_safety.py:208-229 | no state changes before that many turns asked for the same state, except critical taken with force; the new state is the one asked for, or recovering when integrity fails |
| `StorageMonitor.SteadyTargetIsReached` | eap_middleware/storage_safety.py:208-229 | that many turns in a row asking for a state reach it and stay |
| `StorageMonitor.LowIsNoticed` | eap_middleware/storage_safety.py:188-206 | that many low readings turn an accepting monitor to warning and any other to recovering |
| `StorageMonitor.CriticalIsReached` | eap_middleware/storage_safety.py:208-229 | that many critical turns reach critical from any state |
| `StorageMonitor.NormalIsReached` | eap_middleware/storage_safety.py:208-229 | that many recovered readings with integrity reach normal from any state, using the validated order of thresholds |
| `StorageMonitor.FailsClosed` | eap_middleware/storage_safety.py:162-170 | a probe failure or a forced critical reading stops ingress at once |
| `StorageMonitor.CriticalExactlyWhen` | eap_middleware/storage_safety.py:179-206 | a reading counts as critical exactly when some filesystem is at the critical percentage or the one with the least percentage is short of bytes |
| `StorageMonitor.LowExactlyWhen` | eap_middleware/storage_safety.py:186-206 | a reading is low exactly when some filesystem is at or below the warning percentage or the one with the least is at or below the warning bytes; it has recovered exactly when all have the recovery percentage and that one the bytes |
| `StorageMonitor.ByteReserveCanBeMissed` | eap_middleware/storage_safety.py:179-184 | a filesystem below its byte reserve goes unnoticed behind one with a smaller percentage |
| `StorageMonitor.LargeFilesystemsAreNeverMissed` | eap_middleware/storage_safety.py:179-206 | nothing critical is missed when the byte reserve implies the percentage on every filesystem |
| `StorageMonitor.StorageSafetyMonitor.Apply` | eap_middleware/storage_safety.py:208-229 | the debounced transition |
| `StorageMonitor.StorageSafetyMonitor.Sample` | eap_middleware/storage_safety.py:172-186 | the loop finds the fullest filesystem and applies its target; nothing to measure is an error without change |
| `StorageMonitor.StorageSafetyMonitor.Turn` | eap_middleware/storage_safety.py:162-170 | one turn of the loop, exceptions driving it to critical |
| `JobTracker.BoundedMapIsLastUses` | eap_middleware/job_tracker.py:58-66 | a run of puts leaves exactly the last `cap` distinct keys in order of last use with their latest ports |
| `JobTracker.BindingsAreCurrent` | eap_middleware/job_tracker.py:148-222 | over every run of events, inferred ports included, each stored binding was made after its port's last unload and is the latest of its identifier |
| `JobTracker.ActiveExactly` | eap_middleware/job_tracker.py:95-105 | over every run the active ports are exactly those loaded and not unloaded since, each once |
| `JobTracker.LonePortIsTheGuess` | eap_middleware/job_tracker.py:324-368 | an event that names nothing gets a port exactly when that port and no other is active |
| `JobTracker.LookupInOrder` | eap_middleware/job_tracker.py:324-368 | from any bindings, the lookup answers with the stated port, the held job, the held chamber, the first held wafer, the first held lot, in this order; then none for a named chamber and the only active port otherwise |
| `TrackerEvents.LookupOverRuns` | eap_middleware/job_tracker.py:324-368 | after any run the port of each of these is one, and the lookup gives it: a held job wins whatever chamber, wafers and lots the event names, then the chamber, then the first held wafer, then the first held lot |
| `TrackerEvents.OnePortEach` | eap_middleware/job_tracker.py:55-66 | after any run no job, wafer, lot or chamber is held for two ports |
| `TrackerEvents.ActiveByEvents` | eap_middleware/job_tracker.py:94-121 | from the events alone: the active ports are exactly those whose last load or unload was a load |
| `TrackerEvents.ChamberByEvents` | eap_middleware/job_tracker.py:172-190 | from the events alone: a chamber has exactly the port its last port-stating event gave, unless that port was unloaded since |
| `TrackerEvents.EventBinds` | eap_middleware/job_tracker.py:159-246 | after an event that states a port its wafers and lots are held for it, up to the capacity of the maps; a job that starts is bound to the stated port, and a job that ends is forgotten |
| `TrackerEvents.AnswerBinds` | eap_middleware/mapper.py:405-412 | an event that states no port binds what it names to the answer of the lookup if the tracker is asked, and nothing more otherwise |
| `JobTracker.UnloadLeavesNothingExactly` | eap_middleware/job_tracker.py:104-122 | once an unload event is mapped no binding to its port is left exactly when it resolves to another port or names no wafer, lot or chamber |
| `JobTracker.CompletedCassetteStaysBound` | eap_middleware/profiles/spts.py:183-240 | SPTS CassetteComplete (CEID 852) on port 1: whatever came before, its lot is bound to port 1 again after the unload |
| `JobTracker.NamedChamberIsNeverGuessed` | eap_middleware/job_tracker.py:324-368 | an event with a named chamber is answered from its payload or a stored binding of something it names; the active ports make no difference |
| `JobTracker.NamedChamberAnswersAreCurrent` | eap_middleware/job_tracker.py:324-368 | after any run such an answer was bound since that port was last unloaded |
| `JobTracker.BindingsAreRooted` | eap_middleware/mapper.py:371-412 | what guesses come to: over every run each stored binding leads back to a binding made by an event that states its port, or to a moment since that port was last unloaded at which it was the only active one, by whatever chain of lookups |
| `JobTracker.GuessedExactly` | eap_middleware/mapper.py:371-412 | a run stores a guess if and only if some event of it, when it comes, starts a job without a port while one port alone is active, or is asked about with no port, no named chamber, a wafer or lot and nothing known, while one port alone is active |
| `JobTracker.WithoutGuessesPortsAreStated` | eap_middleware/mapper.py:371-412 | in a run without such an event a named chamber is answered only with ports stated, since their last unload, by the events that made the bindings |
| `JobTracker.GuessAnswersNamedChambers` | eap_middleware/mapper.py:371-412 | after any such event, the next question about the same job, or its last lot or wafer, from a named chamber without a port of its own is answered with the guess |
| `JobTracker.GuessAnswersForAChamber` | eap_middleware/mapper.py:399-412 | a run on which an active-port guess becomes a stored binding and then answers for a named chamber while two ports are active |
| `JobTracker.FromMergedEvent` | eap_middleware/mapper.py:371-412 | the mapper's calls equal the specified ones; an event with a named chamber and no port of its own is given one only on a stored binding of something it names |
| `JobTracker.PutBounded` | eap_middleware/job_tracker.py:58-66 | the loop equals the specified put |
| `JobTracker.MachineState.ActivatePort` | eap_middleware/job_tracker.py:100-102 | the port is active afterwards, every other port as before, each once, and no binding changes |
| `JobTracker.MachineState.Deactivate` | eap_middleware/job_tracker.py:104-122 | a binding is held afterwards exactly when it was held before and is to another port; the port is not active, every other port as before |
| `JobTracker.MachineState.Transit` | eap_middleware/job_tracker.py:192-224 | the bindings after a transition |
| `JobTracker.MachineState.NoteWafers` | eap_middleware/job_tracker.py:303-306 | each wafer is bound in order |
| `JobTracker.MachineState.NoteLots` | eap_middleware/job_tracker.py:307-310 | each lot is bound in order |
| `JobTracker.MachineState.NoteResolution` | eap_middleware/job_tracker.py:294-310 | wafers, then lots, are bound to the port |
| `JobTracker.MachineState.Note` | eap_middleware/job_tracker.py:148-183 | transition first, then wafers, lots and chamber |
| `JobTracker.MachineState.Lookup` | eap_middleware/job_tracker.py:324-368 | the port the event states; else of its held job; else of its named chamber; else of its first held wafer; else of its first held lot; else none for a named chamber and the only active port otherwise |
| `JobTracker.MachineState.FirstIn` | eap_middleware/job_tracker.py:355-361 | the port of the first identifier that is stored |
| `LotGenerator.OneMoreEvent` | simulator/data_generator.py:137-186 | one more event keeps the events emitted plus what is left equal to whole lot scripts |
| `LotGenerator.Emit` | simulator/data_generator.py:137-186 | over any number of calls the events are a prefix of whole lots: opening six, four for each wafer with its number, closing six; all lots but the last complete |
| `LotGenerator.ScriptRunsWafers` | simulator/data_generator.py:57-62 | in the script of a lot every wafer starts, is processed and ends, one after another, under its own number |
| `LotGenerator.ScriptNests` | simulator/data_generator.py:40-55 | the wafers of a script are between lot start and lot end; the pod is present, loaded, clamped and mounted before, and unmounted, unclamped, unloaded and absent after |
| `LotGenerator.DataGenerator.StartNewLot` | simulator/data_generator.py:119-135 | a fresh lot has its whole script ahead |
| `LotGenerator.DataGenerator.NextOfWafers` | simulator/data_generator.py:152-170 | the next wafer event, or none once the last wafer is done |
| `LotGenerator.DataGenerator.NextOfLot` | simulator/data_generator.py:172-182 | the next lot event; after lot start come the wafers |
| `LotGenerator.DataGenerator.GetNextEvent` | simulator/data_generator.py:137-186 | the event is the first of what is left, or of a new lot when nothing is left |
| `SptsIds.AlidRoundTrip` | eap_middleware/spts_module_vids.py:312-334 | an alarm id of a listed station decodes to itself exactly when its offset is below 10000 |
| `SptsIds.CeidRoundTrips` | eap_middleware/spts_module_vids.py:312-334 | the ON and OFF forms decode exactly when the biased offset fits its field |
| `SptsIds.DecodesExactly` | eap_middleware/spts_module_vids.py:312-334 | an id decodes to an alarm if and only if it is its alarm id, with or without the OFF bias, and the offset is below 10000, or one of its two event ids and the biased offset fits its field |
| `SptsIds.ListedIsTheTable` | eap_middleware/spts_module_vids.py:296-297 | the listed station numbers are those of the table |
| `SptsIds.OneClaim` | eap_middleware/spts_module_vids.py:125-143 | with distinct stations every id belongs to one variable of one station |
| `SptsIds.FamiliesOverlap` | eap_middleware/spts_module_vids.py:125-143 | two families of one station can compute the same id |
| `SptsIds.ManualIsPublished` | eap_middleware/spts_module_vids.py:125-143 | the published stations and types keep families of up to 201 offsets in their station's block |
| `SptsIds.Resolve` | eap_middleware/spts_module_vids.py:146-175 | resolving never clashes, succeeds exactly when every entry is in the tables, and names exactly the layout's ids, each rightly |

## Left out

- Filenames, start timestamps, row formatting and timestamp parsing: a lot file is its key, machine, rows, entries and lot.
- The writer without a journal, and its in-memory mirror list.
- A release interrupted half way by a failing journal call.
- Lot buffers as shared objects: the writer holds them as values in its map, so aliasing of a buffer is not captured.
- The replay loop itself: replay is appending pending entries that are not held.
- SQLite, transactions across processes, schema migration and fsync: a statement or transaction is one atomic step.
- Lengths at which error texts are cut, except the drop reason of a journal entry; `last_error` columns.
- The order in which due mirror tasks are handed out: any selection of due tasks is allowed.
- SECS-II decoding, HSMS sockets, malformed message bodies and the error acks that answer them.
- Per-message counts and log lines of the subscription; `disable_all_events`; the read-back of enabled events after subscribing.
- Building report and event records in the script; only the derivation of bands is modelled.
- HTTP, MQTT, TLS and payloads: a publish attempt is its outcome. Sleeps and the rate limiter between attempts.
- A second publish worker left over from a stop that timed out.
- Eventual delivery of the spool: a drain worker that leaves on disconnect can race a reschedule.
- Messages with equal contents: messages are told apart by production order, as object identity does.
- `request_online`, which follows a check that is not atomic with the capture of the host.
- Joining of worker threads and the pause between attempts, beyond being cut short by a stop.
- `drain_drops` apart from `drain_drop_details`: both clear the same counters, only what is returned differs.
- Alerts, event-log entries and the transition callback of the storage monitor.
- Payload decoding of the tracker: identifiers arrive extracted and stripped, the mapper's key lists and the tracker's finding the same values; machines are independent.
- Event data other than state and wafer number in the lot generator; its random draws are parameters.
- The variable tables of the SPTS manual: any tables with distinct offsets; station and type numbers are the published ones.
- Operator interface, packaging, network discovery and vendor profiles.
