# Durable protocols and exact rewrites of the call audit platform

This project models the parts of the platform that decide who may spend money on
an AI call, what a month was charged, and which stored facts may change, and
proves what those parts promise. The SQL tables become sequences, maps and
objects; every claim is for all table contents, all inputs or all runs.

Two granularities are used. A transaction that reads under `FOR UPDATE` is one
step. Statements that run outside a transaction are separate steps, and any
other worker's step, a crash or an arbitrary clock reading may come between two
of them. A run is an arbitrary sequence of steps; whatever the environment
decides (clock readings, model answers, which rows a query returns first) is a
parameter of the step.

| file | what it models |
|---|---|
| `SpendLease.dfy`, `SpendLeaseProtocol.dfy`, `SpendLeaseClock.dfy`, `SpendWorker.dfy` | the billing spend lease, its interleaved claims, their thirty minutes, and the worker loop around it |
| `LateRecording.dfy` | late-recording batches, items and month corrections |
| `ManualReaudit.dfy` | the administrator's re-audit queue and the audit writer that settles it |
| `RetryPipeline.dfy` | the three copies of the retry and exhaustion rule |
| `PageRewrite.dfy`, `MonitorRewrite.dfy` | query rewrites against the statements they replaced |
| `Charges.dfy` | audited duration, projected and capped charge, category totals |
| `Persistence.dfy`, `ResultBundle.dfy` | insert-or-replay-or-conflict, the spend claim, the metric rows of a result |
| `Settlement.dfy` | the append-only settlement versions of a month |
| `RunLifecycle.dfy` | audit runs and rule versions |
| `HashChain.dfy` | the hash-chained audit log |
| `Segments.dfy` | word timestamps to transcript segments |
| `KeysetPaging.dfy` | walking the result listing by its cursor |
| `Datetimes.dfy`, `CycleImport.dfy` | datetime texts and the monthly usage import |

## Where the code does less than it says

Each of these is stated with an input, a family of inputs or a run that shows it,
beside a lemma that says exactly when the promise holds.

- A staged spend result is meant to hold what the final writer needs. It drops
  the failure mode, the decision signals, the blocks and the reused transcript,
  so a recovered write equals the write it replaces only when all of them have
  the value the writer stores by default (`RecoveredWriteFaithfulIff`,
  `RecoveredWriteLosesSignals`).
- The cycle-close and late-recording exhaustion rules differ on an exhausted row
  with no recorded error and attempts left (`ExhaustionRulesAgreeIff`,
  `ExhaustionRulesDisagree`); no run reaches such a row (`RulesAgreeOnEveryRun`).
- Eight starts is the bound for one ordinary worker. The start guard does not
  count attempts, so n workers reach 7 + n and no more (`StartsBounded`,
  `StartsReachBound`), and the bound of eight holds exactly when there is no
  second worker (`EightStartsIff`).
- A crash inside the eighth attempt leaves the artifact neither claimable nor
  given up, for good (`CrashInLastAttemptStrands`, `StrandedForever`). An
  artifact that nobody is working on is listed now or later, or given up,
  exactly when it is not still open with all its attempts used (`HandledIff`,
  `HandledUnlessStranded`).
- A finalized late-recording batch is promised to stay completed. Settling an item
  is two statements without a transaction, and the second one, the recount, is
  unguarded: a finalization between the two is followed by a recount that sets
  the batch running again (`LateRecountReopens`, and the whole run
  `FinalizedBatchReopens`). Items, correction, baseline and counters stay as they
  are in every run (`FinalizedForever`); the row as a whole is stable exactly when
  it is closed and no recount of the batch is pending (`RowStableIff`,
  `FinalizedRowStableIff`), and repeating the finalization closes it again
  (`FinalizeReplays`). A worker that dies between the two statements leaves the
  stored counters behind (`LostRecountLags`); the items themselves always add up
  (`ItemsConserved`).
- The projected charge is not monotone from a negative duration to zero
  (`ProjectedMonotoneIff`, `NegativeDurationCostsMore`). No writer stores a
  negative duration: what an audit stores reads back as the charge policy's own
  adjusted duration, which is never negative (`StoredDurationIsPolicy`).
- Auditor totals over vendor-charged calls stay within vendor totals, however the
  calls are selected, exactly when each of them was audited or carries no credit
  (`AuditorWithinVendorIff`, `CreditBreaksTheBound`). No writer stores a credit:
  the import accepts only unsigned numbers (`ImportedChargesCarryNoCredit`), so
  over imported calls the bound is unconditional (`ImportedMonthWithinVendor`).
- The gap of a category is not the sum of the gaps of its rows when a call has
  only one of the two durations. Gaps add up, however calls are selected, exactly
  when every call has both durations, neither, or a lone one of zero
  (`GapsAddUpIff`, `UnpairedWidensGap`).
- A retired rule version is promised to be retired no earlier than it was
  activated. Saving checks this, activation does not
  (`SwitchKeepsCoherenceIff`, `BackdatedSwitchBreaksCoherence`); over a whole run
  the promise holds exactly when no activation is backdated
  (`RunsKeepCoherenceIff`).

## Model

| member | source | states |
|---|---|---|
| SpendLease.MinimalIdempotent | src/adapters/mysqlBillingSpendLease.ts:236-290 | the persistence projection is idempotent and keeps the terminal unknown-spend result |
| SpendLease.RecoveredWriteFaithfulIff | src/adapters/mysqlReauditWriteRepo.ts:504-688 | what a recovered result writes equals what the original would have written if and only if its transcript is new and every decision field has the value the writer stores by default |
| SpendLease.RecoveredWriteLosesSignals | src/adapters/mysqlBillingSpendLease.ts:245-290 | a concrete result whose recovered write differs |
| SpendLease.LeaseTable.Claim | src/adapters/mysqlBillingSpendLease.ts:65-177 | the uninterrupted claim: acquired, closed, busy and recovered are told apart by the stored row and the clock, and the new row is this worker's, claimed now and expiring 1 800 000 ms later; a refusal leaves the row alone |
| SpendLease.LeaseTable.Insert | src/adapters/mysqlBillingSpendLease.ts:75-101 | the primary key admits one insert; a second one changes nothing |
| SpendLease.LeaseTable.StageResult | src/adapters/mysqlBillingSpendLease.ts:179-192 | staging changes only the holder's active row and reports whether it did |
| SpendLease.LeaseTable.Settle | src/adapters/mysqlBillingSpendLease.ts:194-220 | a decided settlement clears the staged result of the holder's active row and sets the outcome; an ambiguous one only reports the ownership |
| SpendLeaseProtocol.StepKeepsInv | src/adapters/mysqlBillingSpendLease.ts:65-220 | every single statement of every worker keeps the row in step with the history of reported outcomes |
| SpendLeaseProtocol.RunsAccepted | src/adapters/mysqlBillingSpendLease.ts:65-220 | the outcomes of every interleaving form a word of the lease automaton |
| SpendLeaseProtocol.RightsAlternate | src/adapters/mysqlBillingSpendLease.ts:65-220 | in an accepted history grants and unspent releases alternate, starting with a grant |
| SpendLeaseProtocol.SpentIsFinal | src/adapters/mysqlBillingSpendLease.ts:194-220 | nothing is granted, recovered, staged or settled after a spent settlement |
| SpendLeaseProtocol.SpendRightsNeverOverlap | src/adapters/mysqlBillingSpendLease.ts:65-220 | for every schedule of any number of workers, `acquired` and `no_model_call` alternate and `model_spent` ends all grants |
| SpendLeaseProtocol.OwnershipFollowsLatestClaim | src/adapters/mysqlBillingSpendLease.ts:131-220 | an active lease belongs to the latest successful claimer, only that worker stages or settles, staged output exists only while active, and every recovered result was staged or is the terminal one |
| SpendLeaseProtocol.TerminalStable | src/adapters/mysqlBillingSpendLease.ts:236-243 | staging the terminal result changes nothing |
| SpendLeaseClock.RunsKeepClock | src/adapters/mysqlBillingSpendLease.ts:55-177 | in every interleaving an active row expires 1 800 000 ms after the clock of the claim that was granted or recovered last |
| SpendLeaseClock.RecoveredOnlyAfterExpiry | src/adapters/mysqlBillingSpendLease.ts:131-177 | in every interleaving a non-exclusive claim recovers only at a clock 1 800 000 ms or more after the latest successful claim, and a refused one changes nothing |
| SpendLeaseClock.WholeClaimIsClaim | src/adapters/mysqlBillingSpendLease.ts:65-177 | the statements of a claim without interference add up to the claim of the table |
| SpendLeaseClock.ClaimDecidedByHistory | src/adapters/mysqlBillingSpendLease.ts:65-177 | after every run a claim is granted if no right is out, closed after a spend, refused before 30 minutes are over unless exclusive, and recovers the staged result, or the terminal one, from then on |
| SpendLeaseClock.ClaimsThirtyMinutesApart | src/adapters/mysqlBillingSpendLease.ts:55-59 | two claims in turn on any row: after a successful one another worker is busy for 1 800 000 ms and recovers from then on |
| SpendWorker.PaidSurvivesStaging | src/reaudit/worker.ts:268-282 | a paid result is still classified as paid after it was staged and recovered |
| SpendWorker.RunsKeepInv | src/reaudit/worker.ts:186-320 | the worker's position, the lease row and the number of paid calls agree in every reachable state |
| SpendWorker.PaidAtMostOnce | src/reaudit/worker.ts:186-320 | one audit question is paid for at most once under every schedule, crash and clock, a crash inside the provider call counted as paid, and never granted again afterwards |
| SpendWorker.WorkerRunsAreLeaseRuns | src/reaudit/worker.ts:186-320 | each run of the worker loop is a run of the lease protocol |
| SpendWorker.SpentMeansPaidOrRecovered | src/reaudit/worker.ts:302-316 | in every run a lease is settled as spent only if a model call was paid for or a lease was recovered |
| SpendWorker.FreeAnswerReleases | src/reaudit/worker.ts:244-316 | a missing source or a provider error is not paid for and gives the right back |
| SpendWorker.PaidAnswerCloses | src/reaudit/worker.ts:244-316 | any other answer is counted as paid, staged before it is stored, and closes the lease |
| SpendWorker.UnstartedReleases | src/reaudit/worker.ts:214-243 | a granted lease whose work is done or cannot be started is given back unspent |
| SpendWorker.RecoveredCloses | src/reaudit/worker.ts:229-316 | a recovered result is stored without another call and closes the lease, also when the work was done already |
| LateRecording.RunsKeepInv | src/adapters/mysqlLateRecordingCorrections.ts:487-1369 | commit, claim, prepare, finalize, the two statements of a settlement and a crash between them keep the invariant of batches and items |
| LateRecording.EvidenceAttachedOnce | src/adapters/mysqlLateRecordingCorrections.ts:589-621 | each artifact is attached by at most one item of any batch and keeps the attached URL |
| LateRecording.ItemsConserved | src/adapters/mysqlLateRecordingCorrections.ts:658-724 | live, corrected and failed items add up to what the batch accepted in every reachable state, and so do the stored counters unless a recount is outstanding |
| LateRecording.FinalizedForever | src/adapters/mysqlLateRecordingCorrections.ts:1188-1369 | once a batch has its correction no run changes the correction, the items, or any column of the batch but its status and completion time |
| LateRecording.RowStableIff | src/adapters/mysqlLateRecordingCorrections.ts:964-979 | the row of a finalized batch is unchanged by every run if and only if it is closed and no recount of the batch is pending |
| LateRecording.FinalizedRowStableIff | src/adapters/mysqlLateRecordingCorrections.ts:1334-1352 | right after a successful finalization the row is stable for ever if and only if no recount of the batch is pending |
| LateRecording.NoNewRecount | src/adapters/mysqlLateRecordingCorrections.ts:935-963 | no recount of a finalized batch can begin |
| LateRecording.LateRecountReopens | src/adapters/mysqlLateRecordingCorrections.ts:921-979 | finalizing any batch between the two statements of its last settlement is followed by a recount that reopens it |
| LateRecording.FinalizedBatchReopens | src/adapters/mysqlLateRecordingCorrections.ts:921-979 | a whole run from an empty store that ends with a recorded correction and a running batch |
| LateRecording.LostRecountLags | src/adapters/mysqlLateRecordingCorrections.ts:921-979 | a crash between the two statements leaves the stored counters one item short |
| LateRecording.ReplayCloses | src/adapters/mysqlLateRecordingCorrections.ts:1188-1369 | repeating the stored request on a finalized batch replays, closes its row and changes nothing else |
| LateRecording.BaselineWrittenOnce | src/adapters/mysqlLateRecordingCorrections.ts:1045-1115 | the baseline total of a batch never changes after its first preparation |
| LateRecording.CorrectionExplainsMonth | src/lateRecording/corrections.ts:469-488 | every correction's delta is measured from the captured baseline over terminal items only, its counts are the item counts, and its batch row is closed or reopened |
| LateRecording.FinalizeReplays | src/adapters/mysqlLateRecordingCorrections.ts:1188-1369 | a finalization that succeeded gives the same answer and correction after any further steps, closes a row that was reopened, and changes nothing at all if no recount was pending |
| LateRecording.RecordedIff | src/adapters/mysqlLateRecordingCorrections.ts:1188-1369 | a correction is recorded if and only if the batch has a baseline, items, nothing live and no correction yet, whether or not a recount is outstanding |
| LateRecording.AttachAllFacts | src/adapters/mysqlLateRecordingCorrections.ts:589-621 | the attachment loop attaches only free artifacts, each at most once, and never replaces a URL |
| LateRecording.AttachAllExact | src/adapters/mysqlLateRecordingCorrections.ts:589-621 | every free artifact that an accepted row names, one without a URL, is won by some row of the upload, and an artifact nobody won is left as it was |
| LateRecording.InsertAllFacts | src/adapters/mysqlLateRecordingCorrections.ts:658-704 | the items inserted are exactly the attached rows, in order |
| LateRecording.StoredBatch | src/adapters/mysqlLateRecordingCorrections.ts:658-724 | the batch of an accepted commit has the upload's key, digest, month and rate card, the number of rows that won, zero counters, no baseline and no times; earlier batches stay |
| LateRecording.StoredItems | src/adapters/mysqlLateRecordingCorrections.ts:658-704 | each new item carries batch, call, artifact, URL, row and previous amount of its own row, is accepted and unattempted |
| LateRecording.CommitReplaysForever | src/adapters/mysqlLateRecordingCorrections.ts:537-565 | after an accepted commit and any further steps the same key with the same file and month replays, with another file or month is refused, and neither changes anything |
| LateRecording.OneLiveItemPerCall | src/adapters/mysqlLateRecordingCorrections.ts:658-704 | in every run a call is never under correction twice at once, nor twice in one batch |
| LateRecording.ClaimItemsEffect | src/adapters/mysqlLateRecordingCorrections.ts:744-828 | a claim moves exactly the selected, accepted, never attempted items to auditing with one attempt |
| LateRecording.CorrectionStore.Commit | src/adapters/mysqlLateRecordingCorrections.ts:487-724 | keeps the invariant; a used key replays exactly its own file and month and refuses anything else; nothing to do exactly when no row is accepted or wins; otherwise one batch with the upload's key, digest, month and rate card and the attached rows |
| LateRecording.CorrectionStore.ClaimCandidates | src/adapters/mysqlLateRecordingCorrections.ts:744-828 | keeps the invariant, moves exactly the chosen accepted items to auditing with one attempt, and sets their batches running from the claim's time on |
| LateRecording.CorrectionStore.MoveItemOn | src/adapters/mysqlLateRecordingCorrections.ts:934-963 | the first statement moves exactly an item under audit in this batch to its end state with the revised amount and time given, live items fall by one, and its batch is behind |
| LateRecording.CorrectionStore.RecountBatch | src/adapters/mysqlLateRecordingCorrections.ts:964-979 | the second statement makes the counters right and the row running, whatever it was, and keeps the invariant |
| LateRecording.CorrectionStore.SettleItem | src/adapters/mysqlLateRecordingCorrections.ts:921-979 | both statements with nothing between them: exactly an item under audit is settled, live items fall by one, the counters are right and, if they were before, rise by one |
| LateRecording.CorrectionStore.PrepareBatch | src/adapters/mysqlLateRecordingCorrections.ts:1045-1115 | keeps the invariant and captures the given total as baseline exactly if none is stored, starts a batch that was only accepted, and leaves every other row and column |
| LateRecording.CorrectionStore.FinalizeBatch | src/adapters/mysqlLateRecordingCorrections.ts:1188-1369 | keeps the invariant; a correction is recorded exactly once, for a batch with items, a baseline and nothing live, measured from that baseline; no stored correction is ever altered, a replay only closes a reopened row, and a refusal changes nothing |
| ManualReaudit.RunsKeepInv | src/adapters/mysqlManualReauditQueue.ts:199-778 | enqueue, expiry, start, persist, failure, settlement and foreign audits keep the queue invariant |
| ManualReaudit.OneLiveItemPerCall | src/adapters/mysqlManualReauditQueue.ts:368-498 | a call never has two queued-or-processing items |
| ManualReaudit.ItemsOnlyAdvance | src/adapters/mysqlReauditWriteRepo.ts:141-201 | an item only advances, enters processing at most once and is frozen when settled |
| ManualReaudit.RequestMatchesItems | src/adapters/mysqlManualReauditQueue.ts:711-778 | a request is terminal and has a completion time exactly when it has no live item, and its counters are its item counts |
| ManualReaudit.NoLostAudit | src/adapters/mysqlReauditWriteRepo.ts:285-324 | an item is completed exactly when one pointer write carries it, to one completed audit of its call, from the item's baseline |
| ManualReaudit.PointerWritesChain | src/adapters/mysqlManualReauditQueue.ts:688-700 | the pointer writes of a call form one chain that ends at the current pointer |
| ManualReaudit.BaselineAnsweredOnce | src/reaudit/manualRequests.ts:230-237 | two completed items of one call never started from the same audit |
| ManualReaudit.PointersMoveOnlyOnCompletion | src/adapters/mysqlReauditWriteRepo.ts:698-722 | a completed item leaves its call at the new audit with exactly the answered category; failed, skipped and expired items leave every pointer and category unchanged |
| ManualReaudit.CategoryStep | src/adapters/mysqlReauditWriteRepo.ts:698-722 | a step that moves a pointer leaves the category it carries; a step that does not leaves the category alone |
| ManualReaudit.CategoryFollowsPointer | src/adapters/mysqlReauditWriteRepo.ts:698-722 | over every run the category of a call is the one carried by the latest step that moved its pointer |
| ManualReaudit.PersistDecided | src/adapters/mysqlReauditWriteRepo.ts:285-408 | the ways an answer is taken in, with everything each writes: ignored, skipped on a moved baseline, failed with its code, or completed with audit, pointer, category and pointer write |
| ManualReaudit.StartDecided | src/adapters/mysqlReauditWriteRepo.ts:141-201 | a live item is started, with one attempt, exactly when its baseline is still the latest audit, and skipped otherwise |
| ManualReaudit.SettledItem | src/adapters/mysqlManualReauditQueue.ts:711-778 | a settlement writes status and error of its own item and nothing else of any item, call, audit or request identity |
| ManualReaudit.ExpireEffect | src/adapters/mysqlManualReauditQueue.ts:199-238 | expiry fails exactly the interrupted processing items, with the interruption's code |
| ManualReaudit.UnavailableEffect | src/adapters/mysqlManualReauditQueue.ts:625-652 | a live candidate without a recording fails with its own code and one attempt; a settled one is left alone |
| ManualReaudit.StoredRequest | src/adapters/mysqlManualReauditQueue.ts:429-480 | an accepted selection stores one queued request with the key, the digest and the number of free calls, and zero counters |
| ManualReaudit.StoredItem | src/adapters/mysqlManualReauditQueue.ts:429-480 | each new item is queued, unattempted, and carries call and baseline of its own free selection |
| ManualReaudit.EnqueueReplaysForever | src/adapters/mysqlManualReauditQueue.ts:386-408 | after an accepted selection and any further steps the same key replays exactly its own digest, conflicts on any other, and changes nothing |
| ManualReaudit.IndexByReference | src/adapters/mysqlManualReauditQueue.ts:329-345 | the loop groups the looked-up rows by reference without losing or inventing one |
| ManualReaudit.SelectedCalls | src/adapters/mysqlManualReauditQueue.ts:329-361 | a selection succeeds exactly when every reference names one call, and then holds each such call once |
| ManualReaudit.Put | src/adapters/mysqlManualReauditQueue.ts:346-360 | insertion into an ordered map keeps the place of a known key and the order of the others |
| ManualReaudit.ReauditQueue.EnqueueSelection | src/adapters/mysqlManualReauditQueue.ts:368-498 | keeps the invariant; a used key replays exactly its own digest and conflicts on any other; already queued exactly when every selected call is busy; unavailable only for a repeated call, changing nothing; otherwise one queued request with the key, digest and free calls of the selection |
| ManualReaudit.ReauditQueue.ExpireInterrupted | src/adapters/mysqlManualReauditQueue.ts:199-238 | the expiry loop fails exactly the given interrupted items, with the interruption's code, and settles their requests |
| ManualReaudit.ReauditQueue.SettleItem | src/adapters/mysqlManualReauditQueue.ts:711-778 | one processing item reaches its end state, live items of its request fall by one, the request is recounted, and closed at this time exactly when nothing is live, every other item and request stays, and the invariant is kept |
| ManualReaudit.ReauditQueue.MarkItemStarted | src/adapters/mysqlReauditWriteRepo.ts:141-201 | a live item starts, with one attempt, exactly while its baseline is the call's latest audit, and is skipped otherwise |
| ManualReaudit.ReauditQueue.PersistAnswered | src/adapters/mysqlReauditWriteRepo.ts:285-324 | audit, pointer, category and item change together or not at all: a completed persist leaves the call at the new audit with exactly the answered category |
| RetryPipeline.ExhaustionRulesAgreeIff | src/adapters/mysqlLateRecordingCorrections.ts:1738-1744 | the late-recording rule and the cycle-close rule agree on a row if and only if it is not exhausted with a NULL error and attempts left |
| RetryPipeline.ExhaustionRulesDisagree | src/adapters/mysqlCycleClose.ts:139-165 | a concrete row on which they differ |
| RetryPipeline.DeferredIffListedLater | src/adapters/mysqlReauditReadRepo.ts:191-247 | work is deferred exactly when it is not listed now and is listed from its due time on |
| RetryPipeline.ListedMayStart | src/adapters/mysqlReauditReadRepo.ts:100-142 | what the reader lists the writer can start; what cycle close calls exhausted does neither |
| RetryPipeline.RetryDelaysDouble | src/adapters/mysqlReauditWriteRepo.ts:76-90 | retry delays double from one minute and stay below the cap while a retry can be scheduled |
| RetryPipeline.DelayInMinutes | src/adapters/mysqlReauditWriteRepo.ts:76-90 | the retry after attempt k falls due after 1, 2, 4, 8, 16, 32 or 64 minutes, within six hours |
| RetryPipeline.ProviderPrefixes | src/adapters/mysqlReauditWriteRepo.ts:87-90 | a provider error is a code that begins with one of the two provider prefixes, TRANSCRIPTION_PROVIDER_ or CLASSIFICATION_PROVIDER_ |
| RetryPipeline.FailedRow | src/adapters/mysqlReauditWriteRepo.ts:386-492 | the row a failure leaves: its status, the error it remembers, and a due time exactly when the failure is worth a retry and attempts are left |
| RetryPipeline.FailureDecided | src/adapters/mysqlReauditWriteRepo.ts:386-408 | for every failure, code, attempt and clock: a missing source or a provider error before the eighth attempt is listed exactly from its due time on, a reclaimable code at once, and everything else is given up |
| RetryPipeline.ListedAgainIff | src/adapters/mysqlReauditWriteRepo.ts:469-492 | a failed artifact is listed at some later time if and only if its failure is worth a retry or its code reclaimable, and this was not the eighth attempt |
| RetryPipeline.UnknownSpendIsReclaimed | src/adapters/mysqlReauditReadRepo.ts:100-142 | an artifact that failed with the answer of a lost or closed spend lease stays listed, and is not given up, exactly until its eighth attempt |
| RetryPipeline.StartAndSuccess | src/adapters/mysqlReauditWriteRepo.ts:250-276 | a start counts one attempt and clears error and due time; a success is never listed, started or given up |
| RetryPipeline.StartsBounded | src/adapters/mysqlReauditWriteRepo.ts:250-276 | n workers start an artifact at most 7 + n times |
| RetryPipeline.StartsReachBound | src/adapters/mysqlReauditWriteRepo.ts:250-276 | for every n the bound of 7 + n starts is reached |
| RetryPipeline.EightStartsIff | src/adapters/mysqlReauditWriteRepo.ts:74-90 | eight starts bound every run if and only if there is at most one worker |
| RetryPipeline.HandledIff | src/adapters/mysqlReauditReadRepo.ts:100-142 | an unaudited artifact is listed at some time or given up by cycle close if and only if it is not still open with all attempts used |
| RetryPipeline.HandledUnlessStranded | src/adapters/mysqlCycleClose.ts:139-165 | the same on every reachable state with idle workers |
| RetryPipeline.RulesAgreeOnEveryRun | src/adapters/mysqlCycleClose.ts:139-165 | on every reachable state both exhaustion rules agree |
| RetryPipeline.ExhaustedForever | src/adapters/mysqlReauditWriteRepo.ts:250-276 | with one worker an exhausted artifact is never listed, started or changed again |
| RetryPipeline.GivenUpForGood | src/adapters/mysqlReauditWriteRepo.ts:469-492 | the same from the start: once cycle close gives an artifact up it stays given up |
| RetryPipeline.WorkingMeansProcessing | src/adapters/mysqlReauditWriteRepo.ts:250-276 | while the single worker works on an artifact its status is processing, so none is at work on an exhausted one |
| RetryPipeline.AfterRounds | src/adapters/mysqlReauditWriteRepo.ts:386-408 | k failed rounds leave exactly k attempts |
| RetryPipeline.TwoWorkersStartNineTimes | src/adapters/mysqlReauditWriteRepo.ts:250-276 | a concrete run in which two workers start an artifact nine times |
| RetryPipeline.CrashInLastAttemptStrands | src/adapters/mysqlReauditReadRepo.ts:100-142 | a concrete run that leaves the artifact neither claimable nor exhausted |
| RetryPipeline.StrandedForever | src/adapters/mysqlReauditReadRepo.ts:100-142 | no run of any number of workers ever lists, starts or gives up a stranded artifact |
| PageRewrite.RankedIsFirst | src/adapters/mysqlBillingCategoryAnalysis.ts:194-233 | keeping row number one of a partition with distinct ranks is the ORDER BY LIMIT 1 lookup |
| PageRewrite.LegacyJoinIsRowOf | src/adapters/mysqlBillingCategoryAnalysis.ts:432-479 | the month-wide join yields exactly one row, the call's own, for a call with evidence and none for any other |
| PageRewrite.EnrichedIsRowOf | src/adapters/mysqlBillingCategoryAnalysis.ts:745-798 | the page lookups yield the same row, whatever else is on the page |
| PageRewrite.RowColumns | src/adapters/mysqlBillingCategoryAnalysis.ts:194-233 | a row shows the newest evidence of its call, the oldest task reference or else the call's key, and the newest finding of its own |
| PageRewrite.VendorColumns | src/adapters/mysqlKserveVendorBilled.ts:70-90 | minutes and amount are each the greatest final assertion of their own kind among the call's rows |
| PageRewrite.VendorPresent | src/adapters/mysqlKserveVendorBilled.ts:70-90 | a call has vendor columns exactly when some final row of it asserts minutes or an amount |
| PageRewrite.VendorAgrees | src/adapters/mysqlKserveVendorBilled.ts:70-90 | the grouped vendor assertions give each scoped call the maxima of its own rows |
| PageRewrite.RecordingAgrees | src/adapters/mysqlBillingCategoryAnalysis.ts:278-289 | the grouped availability flag is the EXISTS of a final recording with a source |
| PageRewrite.OrderIsForced | src/adapters/mysqlBillingCategoryAnalysis.ts:711-722 | the order is total: a sequence is the answer if and only if it is sorted and a permutation of the rows |
| PageRewrite.SortMirrors | src/adapters/mysqlBillingCategoryAnalysis.ts:723-799 | ordering the calls and ordering their rows commute |
| PageRewrite.PageFirstEqualsLegacy | src/adapters/mysqlBillingCategoryAnalysis.ts:723-821 | for all contents with unique ids, every filter, collation, limit and offset, cut-then-enrich returns the legacy rows in the legacy order |
| PageRewrite.PageReadsInOrder | src/adapters/mysqlBillingCategoryAnalysis.ts:711-722 | every page reads newest start first, then by task reference, among all calls and filters |
| PageRewrite.PagesTile | src/adapters/mysqlBillingCategoryAnalysis.ts:711-722 | a page keeps within its limit, and adjacent pages make up the larger page: no row is shown twice or skipped |
| MonitorRewrite.JoinIffEligible | src/adapters/mysqlAuditMonitor.ts:352-378 | a call has a row in the latest-analysis, latest-transcript join if and only if the EXISTS form admits it |
| MonitorRewrite.CountsAgree | src/adapters/mysqlAuditMonitor.ts:579-615 | COUNT(DISTINCT id) over the join equals COUNT(*) over the eligible calls |
| MonitorRewrite.EventCountedAlike | src/adapters/mysqlAuditMonitor.ts:616-671 | both forms count a usage event once or not at all, and agree which |
| MonitorRewrite.EventCountedIff | src/adapters/mysqlAuditMonitor.ts:616-671 | usage is counted if and only if it was recorded for an eligible call in scope under that call's latest run, and the run is stored |
| MonitorRewrite.EventsAgree | src/adapters/mysqlAuditMonitor.ts:616-671 | both joins yield the same usage rows, each once |
| MonitorRewrite.UsageAgrees | src/adapters/mysqlAuditMonitor.ts:616-671 | distinct run counts and all four sums agree for every provider and model and every rolled-up line |
| MonitorRewrite.SummaryOfOne | src/adapters/mysqlAuditMonitor.ts:616-671 | one usage row gives its own run and columns to its group, absent values as zero, and nothing to any other group |
| MonitorRewrite.SummariesAdd | src/adapters/mysqlAuditMonitor.ts:616-671 | summaries of two lots of rows add up column by column and their runs unite |
| Charges.DurationFormsAgree | src/adapters/mysqlAuditMonitor.ts:464-486 | the CASE and the LEAST form are equal, and are the greatest duration within recording and grace |
| Charges.LegacyDuration | src/adapters/mysqlBillingCategoryAnalysis.ts:377-392 | an older audit without service end and grace counts one minute past the customer's end, within the recording |
| Charges.BilledMsIsNearest | src/adapters/mysqlBillingCategoryAnalysis.ts:394-396 | the billed duration is the nearest millisecond to the billed minutes |
| Charges.VendorChargeIs | src/adapters/mysqlBillingCategoryAnalysis.ts:398-401 | the supplied amount is the charge; 9.5 a minute applies exactly to calls with minutes and no amount |
| Charges.ProjectedBands | src/adapters/mysqlBillingCategoryAnalysis.ts:403-410 | nothing for zero, 4.75 below thirty seconds, 9.5 for each minute begun from there on |
| Charges.ProjectedIsEngineCharge | src/billing/calculateVerifiedCharge.ts:341-372 | the SQL projection equals the billing engine's paise for every non-negative duration |
| Charges.ProjectedMonotoneIff | src/adapters/mysqlBillingCategoryAnalysis.ts:403-410 | a longer duration costs no less if and only if it is not zero after a negative one |
| Charges.NegativeDurationCostsMore | src/adapters/mysqlBillingCategoryAnalysis.ts:403-410 | a concrete pair of durations that breaks monotonicity |
| Charges.StoredDurationIsPolicy | src/billing/categoryChargePolicy.ts:102-123 | the audited duration read back from a stored audit is the policy's adjusted chargeable duration: the end clamped to the recording, plus the grace, within the recording |
| Charges.CapIsExact | src/adapters/mysqlBillingCategoryAnalysis.ts:412-419 | the capped charge is the greatest amount within the projection and within a present vendor charge |
| Charges.CappedMonotone | src/adapters/mysqlBillingCategoryAnalysis.ts:412-419 | for non-negative durations a longer audit never lowers the capped charge |
| Charges.CategoriesPartitionMonth | src/adapters/mysqlBillingCategoryAnalysis.ts:531-565 | every column of the month is the sum of that column over the categories shown |
| Charges.DifferenceExplained | src/adapters/mysqlBillingCategoryAnalysis.ts:531-565 | vendor total minus auditor total is savings plus unfinalized vendor charges minus unbilled auditor charges |
| Charges.ChargedDifference | src/adapters/mysqlBillingCategoryAnalysis.ts:531-565 | over vendor-charged calls the difference of the totals is the savings plus the unaudited charges |
| Charges.CallWithinVendorIff | src/adapters/mysqlBillingCategoryAnalysis.ts:412-419 | a vendor-charged call's auditor share is within its vendor share if and only if it was audited or carries no credit |
| Charges.AuditorWithinVendorIff | src/adapters/mysqlBillingCategoryAnalysis.ts:516-530 | the auditor total of every selection of vendor-charged calls is within its vendor total if and only if each call was audited or carries no credit |
| Charges.AuditorWithinVendor | src/adapters/mysqlBillingCategoryAnalysis.ts:516-530 | with non-negative vendor assertions no category's auditor total exceeds its vendor total, nor does the month's |
| Charges.CreditBreaksTheBound | src/adapters/mysqlBillingCategoryAnalysis.ts:516-530 | a concrete call, which no writer stores, for which the bound would fail |
| Charges.GapCounts | src/adapters/mysqlBillingCategoryAnalysis.ts:531-565 | the call counters of a group partition its calls and bound each other |
| Charges.CountersCount | src/adapters/mysqlBillingCategoryAnalysis.ts:531-565 | the comparable, billed and audited counters count the calls with both durations, a billed one and an audited one |
| Charges.IssuesByCategory | src/adapters/mysqlBillingCategoryAnalysis.ts:531-565 | the category OK counts no issue and every other category counts nothing else |
| Charges.GroupGapExplained | src/adapters/mysqlBillingCategoryAnalysis.ts:940-947 | a category's gap is its rows' gaps plus the unpaired durations, and is unknown only when nothing was measured |
| Charges.RowCountsAsShownIff | src/adapters/mysqlBillingCategoryAnalysis.ts:940-947 | a row counts in a total gap as it is shown if and only if it has both durations, neither, or a lone one of zero |
| Charges.GapsAddUpIff | src/adapters/mysqlBillingCategoryAnalysis.ts:551-560 | the total gap of every selection is the sum of the gaps shown if and only if every call is of that kind |
| Charges.UnpairedWidensGap | src/adapters/mysqlBillingCategoryAnalysis.ts:551-560 | a billed call that was never audited shows no gap of its own and still counts in its category's gap |
| Persistence.FirstWriterWins | src/adapters/mysqlCallAuditPersistence.ts:982-1080 | per key at most one save reports inserted, exactly when the key is stored, and every answer given stays true |
| Persistence.RowsAreFinal | src/adapters/mysqlCallAuditPersistence.ts:982-1080 | no stored row ever changes or leaves |
| Persistence.LaterAnswersDecided | src/adapters/mysqlCallAuditPersistence.ts:1014-1040 | once a key is stored, equal payloads replay and unequal ones conflict, under every race |
| Persistence.DerivedIdsNeverFail | src/adapters/mysqlCallAuditPersistence.ts:982-1006 | with ids derived injectively from keys, a save that lost its insert always finds the row again |
| SpendClaim.ClaimedAtMostOnce | src/adapters/mysqlCallAuditPersistence.ts:946-976 | a source revision is claimed at most once over all interleavings, only if no other run's result existed when the claimer looked |
| SpendClaim.PriorResultRefused | src/adapters/mysqlCallAuditPersistence.ts:946-976 | once another run's result is saved and no claim of this run is past the history read, every later answer to this run is prior result, under every interleaving |
| ResultBundle.AssertBundleShape | src/adapters/mysqlCallAuditPersistence.ts:627-672 | the check passes if and only if the metrics are exactly the rubric, once each, of this result, or empty for any other result |
| ResultBundle.MetricScoresConflictField | src/adapters/mysqlCallAuditPersistence.ts:564-598 | no field is reported if and only if counts agree, stored codes are distinct and every record is stored as submitted |
| ResultBundle.MatchesIffSameRows | src/adapters/mysqlCallAuditPersistence.ts:564-598 | for records with distinct codes the comparison passes exactly when both sides are the same rows |
| ResultBundle.WellShapedCodesDistinct | src/adapters/mysqlCallAuditPersistence.ts:627-672 | a bundle of the right shape has distinct codes, so the comparison is exact for it |
| Settlement.PlannedInsertFailsIff | src/adapters/mysqlKserveSettlement.ts:281-303 | a planned version is rejected if and only if its version or its key was taken since the tail was read |
| Settlement.VersionsFormOneChain | src/adapters/mysqlKserveSettlement.ts:253-323 | under every interleaving a month holds versions 1..n without a gap, each superseding exactly the one before |
| Settlement.RowsAreFinal | src/adapters/mysqlKserveSettlement.ts:253-323 | no stored version ever changes or leaves |
| Settlement.OneVersionPerKey | src/adapters/mysqlKserveSettlement.ts:349-369 | any number of racing saves under one key record at most one version, and every answer stays true |
| Settlement.HistoryIsExact | src/adapters/mysqlKserveSettlement.ts:326-347 | the history lists n, n-1, ... with their amounts, as many as asked for between 1 and 50, marks only version n current, and says truncated exactly when it stops early |
| Settlement.SettlementTable.RecordSettlement | src/adapters/mysqlKserveSettlement.ts:253-323 | an uninterrupted save replays, refuses or appends the next version, and keeps every month linear |
| RunLifecycle.HistoriesAreAdmissible | src/adapters/mysqlCallAuditControl.ts:1568-1661 | every run's history is pending, perhaps running, then at most one terminal status, and its row agrees with it |
| RunLifecycle.RunsOnlyAdvance | src/adapters/mysqlCallAuditControl.ts:1612-1661 | coverage never changes, history only grows, a terminal row is frozen for good |
| RunLifecycle.CreatedRun | src/adapters/mysqlCallAuditControl.ts:1704-1727 | a run is born pending with the request's identity and coverage, no times, no error and zero counters |
| RunLifecycle.UpdateDecided | src/adapters/mysqlCallAuditControl.ts:1729-1828 | for each call, when it updates a row and the whole new row: completed with no error and the given counters, failed and cancelled keeping the stored counters when none are given |
| RunLifecycle.ReplayDecided | src/adapters/mysqlCallAuditControl.ts:1729-1828 | a call replays exactly when the row already says all that it asks for |
| RunLifecycle.EndIsWhatWasAsked | src/adapters/mysqlCallAuditControl.ts:1612-1661 | over every run a stored run has an end if and only if that end was asked for while it was unfinished: completed exactly when a markCompleted was applied |
| RunLifecycle.RepeatedCallReplays | src/adapters/mysqlCallAuditControl.ts:1729-1828 | a transition that succeeded replays when it is repeated |
| RunLifecycle.FinishReplaysForever | src/adapters/mysqlCallAuditControl.ts:1612-1661 | a finish that succeeded replays after any further steps |
| RunLifecycle.CreateReplaysForever | src/adapters/mysqlCallAuditControl.ts:1704-1727 | a stored request replays whatever progress its run made; any other payload for its key conflicts |
| RunLifecycle.RunTable.Transition | src/adapters/mysqlCallAuditControl.ts:1568-1605 | one locked transition: missing, refused, replayed or exactly one row rewritten, with status, times, error and counters stated for each call |
| RuleVersions.OneActiveContractsImmutable | src/adapters/mysqlCallAuditControl.ts:1407-1561 | across all saves and activations at most one version is active and no stored contract changes |
| RuleVersions.SwitchEffect | src/adapters/mysqlCallAuditControl.ts:1460-1561 | an activation activates the target, retires the one active before it and touches nothing else |
| RuleVersions.RepeatedCallReplays | src/adapters/mysqlCallAuditControl.ts:1407-1561 | a save or activation that succeeded replays at once without a change |
| RuleVersions.SaveAnswer | src/adapters/mysqlCallAuditControl.ts:1407-1453 | replayed, conflicting and inserted saves are told apart by what is stored |
| RuleVersions.SwitchAnswer | src/adapters/mysqlCallAuditControl.ts:1460-1561 | activated, replayed and refused activations are told apart by what is stored |
| RuleVersions.SwitchKeepsCoherenceIff | src/adapters/mysqlCallAuditControl.ts:503-607 | an activation keeps every lifecycle coherent if and only if it is not dated before the activation of the version it retires |
| RuleVersions.RunsKeepCoherenceIff | src/adapters/mysqlCallAuditControl.ts:503-607 | over a run of saves and activations every lifecycle is coherent at every moment if and only if no activation is backdated |
| RuleVersions.BackdatedSwitchBreaksCoherence | src/adapters/mysqlCallAuditControl.ts:1535-1550 | a concrete activation after which a version is retired before it was activated |
| RuleVersions.RuleVersionTable.SaveRuleVersionSnapshot | src/adapters/mysqlCallAuditControl.ts:1407-1453 | keeps the invariant; an exact stored copy replays, any other claim to a stored id or label conflicts, and a coherent unclaimed version is inserted unless a second one would be active |
| RuleVersions.RuleVersionTable.ActivateRuleVersion | src/adapters/mysqlCallAuditControl.ts:1460-1561 | keeps the invariant; after success exactly the target is active from this time and not retired, the previous one is retired at this time and no contract changed; it is refused exactly when no version has this id and contract hash, and replays exactly when the target is live |
| HashChain.EveryLogVerifies | src/adapters/mysqlAuditSink.ts:15-72 | every sequence of records yields a log that verifies from genesis and holds those events in order |
| HashChain.HeadDeterminesLog | src/audit/hashChain.ts:4-30 | under an injective hash that never yields genesis, two verified logs with one head are identical |
| HashChain.TamperingIsDetected | src/audit/hashChain.ts:4-30 | any other log under the recorded head fails verification |
| HashChain.SharedHashSharedPast | src/audit/hashChain.ts:4-30 | two verified logs that meet at one hash agree on everything before it, at the same position |
| HashChain.AuditSink.Record | src/adapters/mysqlAuditSink.ts:15-72 | a record appends one entry linked to the head and moves the head to its hash |
| Segments.ElevenLabsWordsToSegments | src/adapters/elevenLabsReaudit.ts:71-114 | the loop's segments render a greedy grouping of the kept tokens |
| Segments.GreedyIsUnique | src/adapters/elevenLabsReaudit.ts:88-93 | only one grouping of the tokens opens a group exactly when the previous one cannot take the token |
| Segments.EverySegmentBounded | src/adapters/elevenLabsReaudit.ts:13-15 | start is not after end, text is at most 250 characters or one token, the span is at most 15 s or the first word's own |
| Segments.KeptAppend | src/adapters/elevenLabsReaudit.ts:77-84 | the words kept are spoken words and audio events with a text and a start not before zero nor after the end, trimmed |
| Segments.AppendSpacing | src/adapters/elevenLabsReaudit.ts:63-68 | a token is set off by one space unless it begins with closing punctuation or an apostrophe |
| Segments.WhyNewSegment | src/adapters/elevenLabsReaudit.ts:86-93 | each segment but the first follows a pause of a second, or would have passed fifteen seconds or 250 characters |
| Segments.WhySameSegment | src/adapters/elevenLabsReaudit.ts:86-93 | inside a segment there is none of the three |
| Segments.RoundIsNearest | src/adapters/elevenLabsReaudit.ts:94-112 | times become the nearest whole milliseconds |
| Segments.EndIsMaximum | src/adapters/elevenLabsReaudit.ts:101-104 | a segment ends at the latest end of its words |
| Segments.SegmentsConserveText | src/adapters/elevenLabsReaudit.ts:63-114 | apart from white space the texts hold every kept token's characters once and in order |
| Segments.TokensReadBack | src/adapters/elevenLabsReaudit.ts:63-68 | a segment of plain tokens is read back from its text by cutting at the spaces |
| KeysetPaging.PageIsNext | src/adapters/mysqlCallAuditReporting.ts:1290-1304 | a page is ordered, lies after the cursor, and leaves nothing behind that is not after its own cursor |
| KeysetPaging.WalkIsComplete | src/adapters/mysqlCallAuditReporting.ts:567-579 | with any inserts between pages the walk is strictly increasing, never meets a refused cursor, and when done has every row present from the start |
| KeysetPaging.InsertedAheadIsServed | src/adapters/mysqlCallAuditReporting.ts:1632-1651 | a row inserted ahead of the cursor is returned too |
| KeysetPaging.WalkEnds | src/adapters/mysqlCallAuditReporting.ts:1632-1651 | once inserts stop, one fetch more than there are rows ahead ends the walk |
| Datetimes.AcceptsExactlyRealMoments | src/adapters/mysqlCallAuditControl.ts:281-350 | a value is accepted if and only if its trimmed text has the pattern and names a real Gregorian moment |
| Datetimes.SpelledMatches | src/adapters/mysqlCallAuditControl.ts:302-350 | every text spelled from well-formed parts, with a space or a T, is matched as those parts |
| Datetimes.NormalisedIsFixed | src/adapters/mysqlCallAuditControl.ts:413-420 | normalising is idempotent, a fixed point of reading back, and keeps the moment |
| Datetimes.TextOrder | src/adapters/mysqlCallAuditControl.ts:290-300 | string order of normalised texts is the order of their seven fields |
| Datetimes.EarlierIffSooner | src/adapters/mysqlCallAuditControl.ts:281-288 | on real moments field order is the order of instants counted in microseconds |
| Datetimes.NormalisedOrderIsChronological | src/adapters/mysqlCallAuditControl.ts:290-350 | comparing normalised texts as strings compares the instants they name, equality included |
| Datetimes.PeriodsAreNonEmpty | src/adapters/mysqlCallAuditControl.ts:1035-1054 | a period is accepted if and only if both ends are and its start is a strictly earlier instant |
| UsageDatetimes.CalendarsAgree | src/adapters/mysqlCycleImport.ts:167-186 | the import's month table and the run's calendar agree on every month of every year |
| UsageDatetimes.CheckedCellsConvert | src/adapters/mysqlCycleImport.ts:141-165 | a cell that passes the row check never makes the conversion throw and becomes the text of the same real moment |
| UsageDatetimes.IndianReads | src/adapters/mysqlCycleImport.ts:154-164 | a cell DD/MM/YYYY is read day first, seconds optional |
| UsageDatetimes.IsoReads | src/adapters/mysqlCycleImport.ts:142-153 | a cell YYYY-MM-DD is read year first, seconds optional |
| CycleImport.NumberIssuesIff | src/imports/csv.ts:91-115 | a row has no number issue if and only if its three durations and its amount, if given, are unsigned decimals, the amount with at most eight places |
| CycleImport.ScanUsageRows | src/imports/csv.ts:74-135 | no issue is reported if and only if every task id is present and distinct and no row has a number issue |
| CycleImport.ImportedChargesCarryNoCredit | src/adapters/mysqlCycleImport.ts:75-104 | a row that passed the scan stores a vendor charge, and neither assertion is negative |
| CycleImport.DecimalReadsBack | src/imports/csv.ts:91-115 | a decimal text is worth its digits over the power of ten of its places |
| CycleImport.ImportedCharge | src/adapters/mysqlCycleImport.ts:75-104 | the charge of an imported call is the billed amount, and 9.5 a billed minute only where no amount was given |
| CycleImport.ImportedMonthWithinVendor | src/adapters/mysqlBillingCategoryAnalysis.ts:516-530 | over imported calls, audited or not, no auditor total exceeds its vendor total |
| CycleImport.PrevalidateUsageRows | src/adapters/mysqlCycleImport.ts:198-222 | no issue is reported if and only if task ids and numbers are sound and every row passes its checks |
| CycleImport.DeepIssue | src/adapters/mysqlCycleImport.ts:114-139 | a row has no issue if and only if its three timestamps and its URL are acceptable |
| CycleImport.CheckedRowsPrepare | src/adapters/mysqlCycleImport.ts:290-323 | a row that passes the check is prepared, each timestamp from its own cell and the source from its own URL |
| CycleImport.CheckedFilesPrepare | src/adapters/mysqlCycleImport.ts:290-323 | a file that passes the check is prepared whole, row for row, with distinct task ids |
| CycleImport.ChunkIsRowByRow | src/adapters/mysqlCycleImport.ts:525-545 | deciding a chunk against the ids stored before it equals importing its rows one at a time |
| CycleImport.IdsAreUnion | src/adapters/mysqlCycleImport.ts:521-677 | stored task ids become the old ones together with the file's |
| CycleImport.ImportKeepsSound | src/adapters/mysqlCycleImport.ts:547-677 | every call keeps one reference and one artifact, no task id has two calls, and exactly the calls with a source are queued, once each |
| CycleImport.ReimportAddsNothing | src/adapters/mysqlCycleImport.ts:454-470 | importing known task ids again, in any file and order, changes nothing |
| CycleImport.OldCallsKept | src/adapters/mysqlCycleImport.ts:547-677 | calls, references, artifacts and outbox rows that are there stay as they are |
| CycleImport.NewCallsFromFile | src/adapters/mysqlCycleImport.ts:547-677 | every new call carries task id and recording source of one row of the file |
| CycleImport.RowByRowConcat | src/adapters/mysqlCycleImport.ts:521-545 | importing two files in turn equals importing them as one |
| CycleImport.Chunks | src/adapters/mysqlCycleImport.ts:258-264 | the chunks are the values in order, full except perhaps the last, none empty |
| CycleImport.ImportTables.ImportUsage | src/adapters/mysqlCycleImport.ts:454-677 | the chunk loop equals the row-by-row import; accepted and duplicates make up the file, queued and missing make up the accepted; a known file changes nothing |

## Left out

- HTTP handlers, mail, object storage, URL fetching, PDF building and the provider calls: plumbing without the state the proofs are about.
- Connection pools, timeouts and statement text: the meaning of a query is modelled, not its plan or its index hints.
- SHA-256, canonical JSON and generated ids: hashes are injective constructors or an assumed injective function, generated ids are positions in the table.
- Which rows a claim or a sweep finds first: the order and limit of those reads are arbitrary in the model, so the proofs hold for every choice.
- The content of analyses, signals and prompts: opaque values that are compared and copied.
- Floating point: seconds and money are reals, milliseconds and minutes integers. Text length counts characters, not UTF-16 units.
- DECIMAL display scale and the CASTs that pin it: values are compared, not their rendering.
- Worker sessions: a worker id is taken to run one session at a time on a lease id, as the worker's own loop does.
- Decision helpers of other files (row eligibility of a late recording, URL normalisation, request validation): their verdicts are inputs.
- The CSV parser behind the scan, the DECIMAL scale of stored numbers, and the times, call legs, provider costs and payloads written with each imported call: field copies of the prepared row.
- `tallyBuckets`, `averageMetricScore`, `factsByReference`, the no-recording totals and the dashboard, settings and export readers: easy members.
- Gap locks and deadlocks of the database: a transaction that locks what it reads is one step.
- PageRewrite.PageFirstEqualsLegacy: a row carries the stored analysis, vendor assertions and finding that its charge columns are computed from, not the computed columns.
- Persistence.FirstWriterWins: a payload is compared as a value; column-by-column comparison and the name of the first differing column are not modelled.
- CycleImport.PrevalidateUsageRows: does not cut the issue list at the reporting limit, which only shortens a non-empty answer.
