# Verified model of the Wcash merge miner

This project models the parts of the Wcash merge miner where money, durability and concurrency meet, and
proves what they promise for every input, every sequence of operations and every interleaving.

- **The share journal.** A single writer appends newline-framed records; an append can fail, tear or be
  lost, and a restart reads the file back with two separately written interpreters. `JournalRecord`,
  `Accounting` and `Replay` define one record and the two interpreters. `Agreement` and `Conservation` prove
  that they agree and that the payout counters are exact. `RecordCounts`, `PendingRecords` and `Acceptance` state the
  counters, the pending winners and the accepted journals over the records alone, and `Refusals` what both refuse.
  `JournalModel` is the live journal as a log, `LiveJournal`, `CrashRecovery`, `JournalOpening` and `LiveMemory` prove
  it over all operations, crashes and restarts. `RecordForms` and `Admission` state which records are written and
  when. `AccountingReader`, `ReplayReader` and `ShareJournal` are the imperative code, proved against the log.
- **Winner lifecycle and reconciliation.** `Lifecycle` is the state machine of a block winner, `Reconcile`
  drives it from arbitrary node replies, and `ReconcileOutcome` gives every outcome in terms of those replies.
- **Leases and retries.** `Leases` follows every child-candidate lease to exactly one owner; `RetryRotation`
  is the rotating selection of pending winners, `RetryOrder` states it without sorting, and
  `RetryCoverage` states exactly when it reaches all of them.
- **The batch worker.** `BatchProtocol` interleaves the worker, its failure protocol and its clients. `BatchFailure`
  adds what holds of a failed worker, `BatchLoop` is the select loop with its fixed order of branches, 
  `BatchHealth` is a worker whose service never fails, and `BatchDrain` proves exactly when a failed worker ends.
  `BatchWorker` is the imperative worker and client code.
- **256-bit arithmetic and the cached authority.** `Targets`, `CompactTarget` and `ExactWork` tie byte-level
  code to the numbers it denotes; `RecoveryAuthority` is the publish, observe and close protocol.
- **Payouts.** `Payout` relates the coinbase check at preparation to the one at recovery.

Conventions of the model. Every error is one `Err`: the texts and kinds of errors are not distinguished. SHA-256
is a free constructor over its preimage, so equal digests mean equal preimages. The JSON text of a record is a
`Codec` parameter that is only assumed to read back what it wrote and to contain no raw newline (`Faithful`).
Exact-block validation is an arbitrary function parameter (`BlockCheck`). Clocks, node replies and what the
operating system does to an append are arguments of the operations, so a statement over all arguments covers
all of their behaviours. The live journal's own limits are those of the code; the one-million-share limit of the
reader, which `record` does not enforce, is a parameter until `Released` fixes it.

Some promises hold only under a condition. The model keeps the code and states the condition:

- A journal opens again exactly when every record that reached the disk was sound, that is, an activation or mark
  with a positive timestamp or a share whose winner blocks pass validation, and its distinct shares fit the reader's
  limit. This holds of every run with any failures and restarts (`RunOpensIffSound`). The writer does not check
  it: an activation at time zero is acknowledged, and the journal does not open after it (`ActivationAtTimeZero`).
- After a journal that both accept, the two interpreters accept and refuse the same well-formed records, except a share
  that reuses an identifier of a share where one of the two won nothing: only accounting refuses it
  (`BothAcceptOrRefuse`).
- Copies of earlier records change nothing exactly for share records (`IdleIffDuplicateShare`); a copy of an
  activation is refused (`ActivationCopyRefused`).
- Across a wrap of its 64-bit cursor the rotation still visits every entry exactly when the wrap lies behind the
  first n entries, or n divides 2^64, or n is odd and 2^64 leaves remainder one (`PassesCoverIff`).
- Urgent-only passes advance the cursor too. Whatever passes of that kind come between, some number of maintenance
  passes is sure to retry every entry exactly when there are at most two entries (`StarvationIff`); from three entries on, a
  few of them at the right distance starve one entry for as long as they go on (`ShortGapStarves`).
- Consuming a prefetched child is safe exactly when the retry slot is empty (`ConsumeSafeIffSlotEmpty`), which the
  documented prefetch discipline ensures; without it a lease is lost (`UndisciplinedLosesLease`).
- A failed batch worker has an armed timer exactly when no weight is pending and a message was already refused
  (`FailedTimerIff`). It ends, with everything that waited answered, exactly when the loop never meets that timer
  elapsed (`EndsIffTimerNeverElapses`). The timer branch comes before the channel and does not clear the timer of
  a failed worker, so a message can wait forever (`Starved`, `StarvationIsReachable`). A worker that failed while a
  batch was pending always ends (`PendingNeverMeets`).

## Model

| member | source | states |
|---|---|---|
| Framing.ReadBoundedJournalLine | wcash-merge-miner/src/coordinator.rs:4184-4215 | However the stream is cut into chunks, the reader returns the next line of the flat bytes, fails exactly when that line is over the bound, and leaves the stream right behind it |
| Framing.ReadBoundedLine | wcash-merge-miner/src/accounting.rs:1056-1081 | The second reader returns the same line and termination flag for every chunking |
| Framing.SplitJoin | wcash-merge-miner/src/coordinator.rs:3289-3290 | Splitting records that were written newline-terminated, with any newline-free tail behind, returns those records and that tail |
| Framing.JoinSplit | wcash-merge-miner/src/coordinator.rs:3076-3086 | Every stream is exactly its terminated lines followed by its tail |
| Framing.SplitTerminatedPrefix | wcash-merge-miner/src/coordinator.rs:3077-3086 | Cutting the file at the consumed bytes of terminated lines keeps exactly those lines and an empty tail |
| Framing.ReadableIffBounded | wcash-merge-miner/src/coordinator.rs:4200-4204 | Reading to the end succeeds if and only if no line and no tail exceeds the record bound |
| Hex.CanonicalParsersAgree | wcash-merge-miner/src/coordinator.rs:4600-4633 | The coordinator's and the accounting parser's canonical decoders accept the same text and read the same 32 bytes |
| JournalRecord.ShareIdInjective | wcash-merge-miner/src/coordinator.rs:4217-4230 | A share identifier binds its job identifier and its parent header hash |
| JournalRecord.FingerprintBinds | wcash-merge-miner/src/coordinator.rs:3719-3779 | Equal replay fingerprints mean equal values of every immutable share and winner field |
| Agreement.DuplicateIsExact | wcash-merge-miner/src/accounting.rs:366-377 | What accounting treats as a duplicate share is a copy of the whole record, winner blocks included |
| Agreement.LedgerRemembers | wcash-merge-miner/src/accounting.rs:356-389 | Every accepted share in the ledger comes from one record that was read, every share record that was read is there, and pending winners belong to accepted shares |
| RecordCounts.CheckedReads | wcash-merge-miner/src/accounting.rs:549-626 | A checked share carries the worker, job, authentication, target, hashes, heights, time and flags of its own record |
| Agreement.TwoParserAgreement | wcash-merge-miner/src/coordinator.rs:3076-3248 | On every journal that accounting accepts, the coordinator's replay succeeds if and only if at most 4096 winners are ever pending, and then both hold the same jobs and the same pending winners with the same flags |
| Agreement.DuplicateShareIsIdle | wcash-merge-miner/src/accounting.rs:366-377 | A copy of an earlier share record, appended to any accepted journal, changes no accounting state |
| Agreement.DuplicateShareResurrectsNothing | wcash-merge-miner/src/coordinator.rs:3117-3128 | The same copy changes nothing in the replay either, also after the winner matured |
| Conservation.AccountingConservation | wcash-merge-miner/src/accounting.rs:911-964 | For every accepted journal the total equals the distinct share identifiers, the sum over workers, over authentication buckets and over all target buckets, and every counter is the exact count of its shares |
| RecordCounts.SnapshotCountsRecords | wcash-merge-miner/src/accounting.rs:911-964 | For every accepted journal the total and every counter of every worker, by authentication, target and winner flag, is the number of distinct identifiers among the share records that say so, and exactly the named workers have an entry |
| PendingRecords.PendingSpeaksForRecords | wcash-merge-miner/src/accounting.rs:771-862 | A winner is pending if and only if a share record claims its block and the last record that names it does not mature it, with the flags of that last record and the data of the share record |
| PendingRecords.UsedJobsSpeakForRecords | wcash-merge-miner/src/accounting.rs:347-356 | The used jobs of an accepted journal are exactly those that its activations and shares name |
| Acceptance.MayComeNext | wcash-merge-miner/src/accounting.rs:327-403 | A record may follow an accepted journal if and only if it is a new job's activation, a copied or new share, or a mark that may follow the last mark of a winner that some share claims, as the records before it say |
| Refusals.BothAcceptOrRefuse | wcash-merge-miner/src/coordinator.rs:3076-3248 | A well-formed next record that does not plainly reuse an identifier is accepted by the replay if and only if accounting accepts it and at most 4096 winners are pending |
| Refusals.ChangedWinnerRefused | wcash-merge-miner/src/coordinator.rs:3117-3128 | The replay refuses a changed copy of an outbox record |
| RecordForms.ActivationForm | wcash-merge-miner/src/accounting.rs:473-547 | An activation passes the field checks if and only if it is what the writer builds for a good job at a positive time |
| RecordForms.ShareForm | wcash-merge-miner/src/accounting.rs:549-769 | A share with a known provenance passes every check that does not depend on history if and only if it is what the writer builds for a good job, worker and time and valid blocks |
| RecordForms.WorkerNames | wcash-merge-miner/src/accounting.rs:966-988 | A worker name has 1 to 128 digits, letters, dots, hyphens, underscores or colons; an older one 1 to 128 characters that are no control characters |
| RecordForms.LegacyShareForm | wcash-merge-miner/src/accounting.rs:561-568 | A share without provenance is checked in the same way, except for the older rule on worker names |
| RecordForms.MarkForm | wcash-merge-miner/src/accounting.rs:771-818 | A status record passes the field checks if and only if it is what the writer builds for some winner at a positive time |
| RecordForms.DisplayOrder | wcash-merge-miner/src/coordinator.rs:4654-4660 | Hash text shows the last byte first, two digits per byte, high digit first |
| Conservation.CountersNeverOverflow | wcash-merge-miner/src/accounting.rs:915-962 | No checked counter of an accepted journal can overflow while fewer than 2^64 - 1 shares are accepted |
| Conservation.IdleIffDuplicateShare | wcash-merge-miner/src/accounting.rs:346-396 | A record leaves the ledger of an accepted journal unchanged if and only if it is a share record that was read before |
| Conservation.DuplicateAnywhere | wcash-merge-miner/src/accounting.rs:366-377 | A copy of an earlier share may stand anywhere later in an accepted journal without changing its outcome |
| WriterCompat.PendingAlwaysGood | wcash-merge-miner/src/accounting.rs:820-860 | In every accepted journal no pending winner is both observed and quarantined, quarantine is Wcash-only, and the winner's metadata is canonical |
| WriterCompat.LimitIrrelevant | wcash-merge-miner/src/accounting.rs:378-382 | The share limit of the reader matters only when the distinct shares exceed it |
| LiveJournal.ActivationAccepted | wcash-merge-miner/src/coordinator.rs:3264-3297 | An activation that the writer decides to append is accepted by both interpreters if and only if its timestamp is positive |
| LiveJournal.ShareAccepted | wcash-merge-miner/src/coordinator.rs:3308-3421 | A share that the writer decides to append is accepted by both interpreters if and only if its winner blocks pass validation |
| LiveJournal.StatusAccepted | wcash-merge-miner/src/coordinator.rs:3457-3541 | A status record that the writer decides to append is accepted by both interpreters if and only if its timestamp is positive |
| LiveJournal.NewShareIsFresh | wcash-merge-miner/src/coordinator.rs:3781-3802 | A share that the active job does not retain has an identifier that no record of the log carries |
| CrashRecovery.DiskSplits | wcash-merge-miner/src/coordinator.rs:4268-4293 | The disk after any failed append splits into the complete records and a tail of the one unacknowledged record |
| CrashRecovery.ReopenRebuilds | wcash-merge-miner/src/coordinator.rs:3060-3262 | Opening what a live journal left on disk succeeds exactly when the distinct shares fit the limit, and gives back its complete records and what they denote |
| CrashRecovery.RunKeepsLive | wcash-merge-miner/src/coordinator.rs:3264-3541 | Every sequence of activations, shares, status marks and restarts whose written records are sound keeps the journal acceptable, within its size limits, with a known active job and at most one unacknowledged record |
| CrashRecovery.CrashRefinement | wcash-merge-miner/src/coordinator.rs:3060-3262 | After any such sequence, with a failure at any append, the disk is the acknowledged records and at most one more, whole or torn, and reopening rebuilds exactly their jobs and pending winners |
| CrashRecovery.AcknowledgedSurvive | wcash-merge-miner/src/coordinator.rs:4268-4293 | Every later log starts with the records acknowledged so far, across failures and restarts |
| CrashRecovery.ActivationIsFresh | wcash-merge-miner/src/accounting.rs:347-354 | In an accepted journal an activation never reuses the identifier of an earlier activation or share |
| CrashRecovery.ActivationCopyRefused | wcash-merge-miner/src/accounting.rs:349-351 | A journal with a copied activation record is rejected |
| CrashRecovery.NoJobActivatedTwice | wcash-merge-miner/src/coordinator.rs:3273-3278 | No job identifier is activated twice, across any number of restarts |
| CrashRecovery.NeverObservedAndConflicting | wcash-merge-miner/src/coordinator.rs:3457-3541 | In every reachable state no pending winner is both observed and quarantined |
| CrashRecovery.WriterReaderCompatible | wcash-merge-miner/src/coordinator.rs:3264-3541 | In every reachable state, what the writer decides to append is accepted by both interpreters if and only if the timestamp is positive, or the winner blocks pass validation |
| JournalOpening.OpensIffAccepted | wcash-merge-miner/src/accounting.rs:378-382 | The released reader opens a log if and only if both interpreters accept it without limits and its distinct shares fit the limit |
| JournalOpening.RejectedForever | wcash-merge-miner/src/accounting.rs:334-402 | Every prefix of an accepted log is accepted, so a rejected log stays rejected whatever is appended |
| JournalOpening.StepOpensIffSound | wcash-merge-miner/src/coordinator.rs:3264-3541 | After any live operation the disk opens if and only if whatever it wrote, acknowledged or not, has a positive timestamp or valid winner blocks, and the shares fit |
| JournalOpening.RunOpensIffSound | wcash-merge-miner/src/coordinator.rs:3060-3262 | After any run from an empty journal, sound or not, with any failed appends and restarts, the disk opens if and only if every write was sound and the shares fit, and then gives back the complete records |
| JournalOpening.ActivationAtTimeZero | wcash-merge-miner/src/coordinator.rs:3264-3297 | An activation at time zero on an empty journal is acknowledged, and the journal does not open after it |
| LiveMemory.MemoryAfterShare | wcash-merge-miner/src/coordinator.rs:3380-3420 | The in-memory insertions of a recorded share are what a replay of the longer log would hold |
| LiveMemory.NewJobRetainsNothing | wcash-merge-miner/src/coordinator.rs:3292-3295 | Clearing the retained identities at an activation forgets nothing that the log holds for the new job |
| JournalReader.ReadFoldIsFoldStream | wcash-merge-miner/src/coordinator.rs:3076-3090 | A loop that reads, decodes and applies line by line computes the fold over the records of the whole stream |
| AccountingReader.ReadAccountingSnapshot | wcash-merge-miner/src/accounting.rs:327-403 | For every chunking the reader succeeds exactly when all lines are readable, decodable and acceptable, and returns the snapshot of those records, whose counters `SnapshotCountsRecords` gives |
| AccountingReader.Accountant.CountShare | wcash-merge-miner/src/accounting.rs:911-952 | The in-place counters become those of the specification, and the call fails exactly on its overflow |
| AccountingReader.Accountant.UpdateWinner | wcash-merge-miner/src/accounting.rs:771-862 | The in-place status update is the specified transition, and a refused one changes nothing |
| AccountingReader.Accountant.EnterShare | wcash-merge-miner/src/accounting.rs:356-389 | A checked share enters once, a copy is skipped, a conflicting definition fails, as specified |
| AccountingReader.Accountant.ReadAll | wcash-merge-miner/src/accounting.rs:334-402 | The reading loop computes the accounting fold over its stream |
| ReplayReader.Replayer.ReplayOne | wcash-merge-miner/src/coordinator.rs:3087-3247 | One iteration of the replay loop is the specified step on the same maps |
| ReplayReader.Replayer.ReplayStream | wcash-merge-miner/src/coordinator.rs:3075-3248 | The replay loop computes the replay of its stream, and its byte count is the length of the terminated part |
| ShareJournal.ShareJournal.AppendSynced | wcash-merge-miner/src/coordinator.rs:4239-4293 | An append is acknowledged, refused or poisons the journal as specified, and the file stays the acknowledged records with at most one failed append behind them |
| ShareJournal.ShareJournal.ActivateJob | wcash-merge-miner/src/coordinator.rs:3264-3297 | The call makes the specified step on the log, and the maps in memory stay what the log denotes |
| ShareJournal.ShareJournal.RecordShare | wcash-merge-miner/src/coordinator.rs:3308-3421 | The call makes the specified step on the log, returns the identifier exactly when it is acknowledged, and keeps the maps what the log denotes |
| Admission.ShareRecordedIff | wcash-merge-miner/src/coordinator.rs:3308-3421 | On a live journal that still writes, with a durable append and room on disk, a share is acknowledged and the log grows by its record if and only if worker name, job, completed block, time and provenance are good, no record of the job has its identifier, and its limit has room |
| Admission.ShareWrittenIff | wcash-merge-miner/src/coordinator.rs:3308-3378 | The decision to write a share, over the log alone |
| Admission.RetryAcknowledgedIff | wcash-merge-miner/src/coordinator.rs:3781-3802 | A share is acknowledged without a record if and only if a record of the log differs from it at most in the time |
| Admission.ActivationRecordedIff | wcash-merge-miner/src/coordinator.rs:3264-3297 | An activation is acknowledged, recorded and made current if and only if its identifiers are canonical, its heights positive, no record names its job and fewer than a million jobs are named |
| Admission.MarkWrittenIff | wcash-merge-miner/src/coordinator.rs:3457-3541 | A mark is written, needless or refused exactly by whether the same block is pending, may become what the mark says, and is not that already |
| Admission.UndurablePoisons | wcash-merge-miner/src/coordinator.rs:4268-4293 | A record that does not become durable is not acknowledged, poisons the journal and leaves on disk exactly the kept part of its line |
| Admission.NothingWritten | wcash-merge-miner/src/coordinator.rs:4239-4267 | A poisoned journal, or one without room for the record, refuses it and stays as it was |
| ShareJournal.ShareJournal.MarkStatus | wcash-merge-miner/src/coordinator.rs:3457-3541 | The call makes the specified step on the log, and keeps the maps what the log denotes |
| ShareJournal.Open | wcash-merge-miner/src/coordinator.rs:3060-3262 | Opening succeeds exactly when both interpreters accept the whole file, cuts off an unterminated tail, and fills the maps from the replay |
| ShareJournal.Reopen | wcash-merge-miner/src/coordinator.rs:3060-3262 | Opening the file of a live journal gives a live journal with the complete records, exactly when their distinct shares fit the limit |
| ShareJournal.RetryIsIdempotent | wcash-merge-miner/src/coordinator.rs:3781-3802 | Recording a recorded share again is acknowledged without a new record at any later time, and refused to another worker |
| ShareJournal.AcknowledgedMarkTakesEffect | wcash-merge-miner/src/coordinator.rs:3457-3541 | After an acknowledged mark, written or found unnecessary, the winner has exactly the flags of that status, or is gone when matured, and no other winner changed |
| ShareJournal.MemoryIsBounded | wcash-merge-miner/src/coordinator.rs:2994-2997 | In every reachable state the retained shares of the active job, the pending winners and the known jobs are within their limits |
| Lifecycle.DecisionsAreRecorded | wcash-merge-miner/src/pool_backend_journal.rs:2080-2200 | Every transition that an observation calls for is one that the backend journal records, and it changes the state |
| Lifecycle.ObservationTakesEffect | wcash-merge-miner/src/coordinator.rs:2351-2455 | What each accepted observation leaves: exact depth on presence, maturity exactly from a second look at the threshold, nothing credited on absence or conflict |
| Lifecycle.RunsAreSane | wcash-merge-miner/src/coordinator.rs:2351-2455 | Over every sequence of observations depths are exact, side-chain monitoring is Zcash-only, quarantine and requeue are Wcash-only |
| Lifecycle.SaneStep | wcash-merge-miner/src/coordinator.rs:2364-2373 | One observation keeps that, enters Matured only from Observed and SideChain only from Pending, and never returns to Pending |
| Lifecycle.MaturityIsEarned | wcash-merge-miner/src/coordinator.rs:2410-2453 | A matured winner has tip height - height + 1 confirmations, at least the threshold, and entered Matured from Observed |
| Lifecycle.SettlesInTwo | wcash-merge-miner/src/coordinator.rs:2351-2455 | Repeating an accepted observation other than the side-chain one changes nothing after two steps |
| Lifecycle.SettledForever | wcash-merge-miner/src/coordinator.rs:2351-2455 | Any number of further repetitions leaves the state after two steps |
| Lifecycle.SideChainIsRefusedTwice | wcash-merge-miner/src/coordinator.rs:2364-2373 | An accepted observation is refused when repeated if and only if it is the side-chain one |
| Reconcile.DeliveryBeforeCredit | wcash-merge-miner/src/coordinator.rs:2001-2180 | A pending Zcash winner becomes Observed only between equal tips and with delivery or a strict depth check, never Matured, Orphaned, Quarantined or Requeued in one pass |
| Reconcile.CreditedIffEvidence | wcash-merge-miner/src/coordinator.rs:2001-2180 | A pending Zcash winner is credited by a pass if and only if the replies are complete and contain that evidence |
| Reconcile.UndeliveredBlocks | wcash-merge-miner/src/coordinator.rs:2067-2134 | A pass over undelivered bytes always fails and reports delivery as blocked, unless the winner lost its height |
| Reconcile.AuditsNeverBlock | wcash-merge-miner/src/coordinator.rs:2067-2134 | Only a winner that requires submission can make a pass report blocked delivery |
| Reconcile.SideChainNeverRefused | wcash-merge-miner/src/coordinator.rs:2106-2110 | For a reachable Zcash winner a side-chain observation is always accepted |
| Reconcile.ZcashRunsAreSafe | wcash-merge-miner/src/coordinator.rs:2001-2180 | Over every sequence of passes a Zcash winner is never quarantined, its depth is exact, and it is first credited by a pass with delivery evidence; whenever it is credited, the pass that last entered credit had evidence for the state it left, and it stayed credited since |
| ReconcileOutcome.OrphanedIffGone | wcash-merge-miner/src/coordinator.rs:2142-2180 | An audited Zcash winner is orphaned if and only if it is credited and a stable tip does not have its block |
| ReconcileOutcome.ObservedIffSeen | wcash-merge-miner/src/coordinator.rs:2142-2180 | It is recorded as observed if and only if a stable tip has it at its exact depth and that is news |
| ReconcileOutcome.MaturedIffDeep | wcash-merge-miner/src/coordinator.rs:2142-2180 | It matures if and only if it was observed and a stable tip has it at the threshold |
| ReconcileOutcome.IdleIffNoNews | wcash-merge-miner/src/coordinator.rs:2155-2180 | Nothing is recorded if and only if every node answered and the tip moved or a stable tip had no news |
| ReconcileOutcome.AuditFailsIff | wcash-merge-miner/src/coordinator.rs:2142-2180 | An audit fails, never blocking, if and only if a node did not answer or a stable tip contradicts the depth |
| ReconcileOutcome.PendingOutcome | wcash-merge-miner/src/coordinator.rs:2001-2180 | Exactly when a pass observes, side-chains or leaves a pending winner, in terms of the reports, tips and depths |
| ReconcileOutcome.BlockedIff | wcash-merge-miner/src/coordinator.rs:2067-2140 | Exactly when a pass over a pending winner reports blocked delivery |
| ReconcileOutcome.CreditIsNewerThanReorg | wcash-merge-miner/src/coordinator.rs:2142-2180 | Over every run a credited Zcash winner entered credit, with evidence, after every pass that did not find its block |
| Reconcile.SubmittingNeverCredits | wcash-merge-miner/src/coordinator.rs:1840-1919 | A pass that submits a Wcash winner ends in an error or in quarantine, never in credit |
| Reconcile.WcashCreditedIffCanonical | wcash-merge-miner/src/coordinator.rs:1801-1919 | A Wcash winner that needs submission is credited if and only if its exact bytes are canonical between equal tips |
| Reconcile.WcashRunsAreSafe | wcash-merge-miner/src/coordinator.rs:1801-1919 | Over every sequence of passes a Wcash winner is never on a side chain and its depth is exact; whenever it is credited, also again after a quarantine or an orphaning, the pass that last entered credit found its exact bytes or its exact-witness status between equal tips, and it stayed credited since |
| ReconcileOutcome.WcashAuditOutcome | wcash-merge-miner/src/coordinator.rs:1801-1919 | Exactly when a pass orphans, requeues, quarantines, observes or matures a Wcash winner that needs no submission |
| ReconcileOutcome.WcashAuditRest | wcash-merge-miner/src/coordinator.rs:1801-1919 | Exactly when that pass records nothing, and when it fails, which never blocks |
| ReconcileOutcome.WcashSubmitOutcome | wcash-merge-miner/src/coordinator.rs:1801-1919 | Exactly when a pass quarantines or leaves a Wcash winner that needs submission; its every failure blocks |
| ReconcileOutcome.WcashCreditIsNewerThanReorg | wcash-merge-miner/src/coordinator.rs:1801-1919 | Over every run a credited Wcash winner entered credit after every stable pass that found another block or another witness |
| Leases.LeasesConserved | wcash-merge-miner/src/coordinator.rs:490-544 | Under the documented discipline and any failures every created lease has exactly one owner, no failed lease is stored over another, and no candidate is requested while the slot is occupied |
| Leases.ConsumeSafeIffSlotEmpty | wcash-merge-miner/src/coordinator.rs:786-812 | Consuming a prefetched child is safe under every pattern of failures if and only if the retry slot is empty |
| Leases.BaselineBalanced | wcash-merge-miner/src/coordinator.rs:858-875 | A preparation without a prefetched child loses no lease, whatever fails |
| Leases.UndisciplinedLosesLease | wcash-merge-miner/src/coordinator.rs:626-632 | A baseline preparation beside an outstanding child can lose a lease |
| Leases.SuccessfulPreparation | wcash-merge-miner/src/coordinator.rs:786-960 | When every step succeeds the new lease ends with the coordinator, the slot is empty and its old lease retired |
| Leases.PreparationOutcome | wcash-merge-miner/src/coordinator.rs:786-960 | For every pattern of failures: the coordinators gain the lease exactly on success, it is retired exactly when the node takes it back, and otherwise waits in the slot |
| Leases.ConsumptionOutcome | wcash-merge-miner/src/coordinator.rs:786-812 | The same for a prefetched child, which always leaves its holder |
| Leases.PrefetchOutcome | wcash-merge-miner/src/coordinator.rs:633-661 | A prefetch hands out the candidate exactly when its own steps succeed and the candidate is valid |
| Leases.RetirementOutcome | wcash-merge-miner/src/coordinator.rs:303-310 | Retiring a child or a generation gives exactly that lease back, and only when the node agrees |
| Leases.Supervisor.RetryPendingRetirement | wcash-merge-miner/src/coordinator.rs:490-511 | The slot is emptied by a successful retirement and kept by a failed one |
| Leases.Supervisor.RetireFailedPreparation | wcash-merge-miner/src/coordinator.rs:513-544 | The lease ends retired or in the slot; a refused one replaces what the slot held, and every lease keeps exactly one owner if and only if the retirement succeeded or the slot was empty |
| Leases.Supervisor.PrepareChildCandidate | wcash-merge-miner/src/coordinator.rs:633-661 | The prefetch follows the specified custody changes and returns the candidate exactly when lock, identity, retry of the slot and validation succeed |
| Leases.Supervisor.PrepareGeneration | wcash-merge-miner/src/coordinator.rs:786-960 | The preparation with its drop guard follows the specified custody changes on every exit, and returns a coordinator for its lease exactly on success |
| RetryRotation.PendingWinnersForRetry | wcash-merge-miner/src/coordinator.rs:2963-2992 | The partition, sort and push loops return the specified selection |
| RetryRotation.SelectionIsSound | wcash-merge-miner/src/coordinator.rs:2963-2992 | A pass retries every urgent winner and at most two others, only pending ones, and others only when maintenance is due |
| RetryOrder.SelectedIff | wcash-merge-miner/src/coordinator.rs:2963-2992 | A pending winner is selected if and only if it is unseen, without conflict and of the job that asked, or maintenance is due and its rank by chain name, height and share identifier is at the cursor |
| RetryRotation.SortIgnoresOrder | wcash-merge-miner/src/coordinator.rs:2977-2984 | The sorted maintenance list does not depend on the order of the map |
| RetryRotation.RotationCovers | wcash-merge-miner/src/coordinator.rs:1329-1338 | Any ceil(n/2) maintenance passes over a fixed set of n entries retry every entry, in whatever order it is listed, while the cursor does not wrap |
| RetryRotation.WrapMissesEntry | wcash-merge-miner/src/coordinator.rs:1329-1332 | Across a wrap of the cursor four passes over seven entries miss the last one |
| RetryRotation.OutboxRetry.ClaimPass | wcash-merge-miner/src/coordinator.rs:1303-1339 | A due pass is claimed once, advances the cursor by two, clears the request and selects from the old cursor; a pass in progress changes nothing |
| RetryCoverage.PassesCoverIff | wcash-merge-miner/src/coordinator.rs:2985-2990 | From an even cursor, also across a wrap, ceil(n/2) passes retry all n entries if and only if n more steps fit below 2^64, or n divides 2^64, or n is odd and 2^64 leaves remainder one |
| RetryCoverage.StarvationIff | wcash-merge-miner/src/coordinator.rs:1326-1339 | For every m and cursor: every schedule with more than m maintenance passes, with any urgent-only passes in between, retries every maintenance entry if and only if there are at most two |
| RetryCoverage.ShortGapStarves | wcash-merge-miner/src/coordinator.rs:1326-1339 | Three entries or more are starved with n/2 - 1 urgent-only passes between maintenance passes, or n - 1 when n is odd |
| RetryCoverage.CarryOut | wcash-merge-miner/src/coordinator.rs:1303-1339 | The scheduler carries out every schedule: each visit selects from the cursor that all earlier visits, urgent-only ones too, advanced by two |
| RetryCoverage.RetriedIffSelected | wcash-merge-miner/src/coordinator.rs:2963-2992 | An entry is retried in a schedule if and only if some visit of the scheduler selects it |
| BatchProtocol.BatchLimits | tower-batch-control/src/service.rs:171-189 | In every interleaving exactly max(weight, 1) * clamp(batches, 1, 64) permits exist, the pending weight is the sum since the last flush and below max(weight, 1) at the loop head, and no more batches execute than configured |
| BatchProtocol.CapacityIsReached | tower-batch-control/src/service.rs:177-189 | This many handles can be ready at once, and the next one waits |
| BatchHealth.UndisturbedRun | tower-batch-control/src/worker.rs:197-290 | Over every run in which nothing fails the worker stays open, and every message was accepted in the order of sending or still waits in that order |
| BatchHealth.FirstIsAccepted | tower-batch-control/src/worker.rs:235-277 | A look at a waiting message accepts the first one, starts the batch that it fills, or the timer of a new batch |
| BatchHealth.TimerStarts | tower-batch-control/src/worker.rs:222-233 | An elapsed timer starts the pending batch |
| BatchHealth.ErrorIsExposed | tower-batch-control/src/worker.rs:298-335 | Whatever error a look runs into, from a batch, a message or a flush, is exposed and closes channel and semaphore |
| BatchProtocol.TimerIffPending | tower-batch-control/src/worker.rs:235-277 | With positive weights the timer is set at the loop head exactly while a batch is pending |
| BatchProtocol.FirstErrorOnly | tower-batch-control/src/worker.rs:298-346 | Whatever a client reads after a closed channel or semaphore, and every refusal, is the first stored error |
| BatchProtocol.FailureProtocol | tower-batch-control/src/worker.rs:298-335 | From the moment an error is exposed no message receives Ok, a waiting message is answered only with that error, and an ended worker has answered it |
| BatchProtocol.DoneAnswersAll | tower-batch-control/src/worker.rs:364-381 | When the worker has ended every message sent was answered or was in its hand when it was dropped |
| BatchProtocol.RunIsSafe | tower-batch-control/src/worker.rs:197-290 | Every step of worker or client keeps all of this, and answers and the first error never change |
| BatchFailure.FailedTimerIff | tower-batch-control/src/worker.rs:222-277 | At every reachable loop head of a failed worker the timer is armed if and only if no weight is pending and some message was refused, and a batch slot is free |
| BatchFailure.FailedWorkerDrains | tower-batch-control/src/worker.rs:137-146 | From every reachable failed loop head n receives answer the first n waiting messages with the first error |
| BatchLoop.FailsRegister | tower-batch-control/src/worker.rs:298-335 | Registering a failure step by step without client steps in between equals registering it at once |
| BatchLoop.LoopIsRun | tower-batch-control/src/worker.rs:197-290 | Whatever the loop, which takes the first ready branch in its fixed order, and its clients do is a sequence of protocol steps, so everything proved of the protocol holds of it |
| BatchDrain.Starved | tower-batch-control/src/worker.rs:202-233 | Once a failed worker has met its elapsed timer, no number of further turns answers a waiting message or ends it |
| BatchDrain.Progress | tower-batch-control/src/worker.rs:202-277 | While no look meets an elapsed timer, every look of a failed worker answers a message, takes a finished batch, or ends it |
| BatchDrain.EndsIffTimerNeverElapses | tower-batch-control/src/worker.rs:197-290 | From every reachable failed loop head, after more looks than waiting messages and running batches, the worker has ended if and only if no look met an elapsed timer; it then answered everything with the first error, and otherwise it is stuck |
| BatchDrain.PendingNeverMeets | tower-batch-control/src/worker.rs:222-277 | A worker that failed while a batch was pending never meets an elapsed timer |
| BatchDrain.ArmedWithOneWaiting | tower-batch-control/src/worker.rs:235-277 | A run in which a batch fails with two messages waiting, and refusing the first of them arms the timer |
| BatchDrain.StarvationIsReachable | tower-batch-control/src/worker.rs:202-233 | If the timer of that run then elapses, the second message stays unanswered through every continuation |
| BatchWorker.Pair.PollPermit | tower-batch-control/src/service.rs:302-315 | A poll releases the earlier permit, takes a new one if available, and reports the stored error once the semaphore is closed |
| BatchWorker.Pair.CallService | tower-batch-control/src/service.rs:317-342 | A call uses up the permit, enters the channel, or fails with the stored error once it is closed |
| BatchWorker.Pair.RegisterFailure | tower-batch-control/src/worker.rs:298-335 | The first failure is exposed and closes everything; a later one changes nothing |
| BatchWorker.Pair.OnMessage | tower-batch-control/src/worker.rs:235-277 | The receive branch is the specified sequence of protocol steps and keeps the batch invariants |
| BatchWorker.Pair.OnTimer | tower-batch-control/src/worker.rs:222-233 | The timer branch is the specified sequence of protocol steps and keeps the batch invariants |
| BatchWorker.Pair.OnBatch | tower-batch-control/src/worker.rs:206-220 | The finished-batch branch is the specified sequence of protocol steps and keeps the batch invariants |
| BatchWorker.Pair.DropWorker | tower-batch-control/src/worker.rs:364-381 | Ending registers the closing if nothing failed before and answers everything left in the channel, as specified |
| BatchWorker.Pair.Select | tower-batch-control/src/worker.rs:202-235 | One pass of the select statement is the specified iteration, a finished batch before an elapsed timer before the channel, and keeps the batch invariants |
| BatchWorker.Pair.SelectLoop | tower-batch-control/src/worker.rs:197-290 | The loop makes the specified iterations for every sequence of what becomes ready, and keeps the batch invariants |
| Targets.IsMetByLeHash | wcash-zcash-aux/src/target.rs:27-36 | The byte loop decides numeric little-endian order for all hashes and targets |
| Targets.Includes | wcash-zcash-aux/src/target.rs:38-42 | A target includes another if and only if every hash that meets the other meets it |
| CompactTarget.DecodeCompactTarget | wcash-genesis/src/lib.rs:819-866 | Decoding succeeds if and only if the sign bit is clear and floor(word * 256^(size - 3)) is in 1..2^256 - 1, and the 32 big-endian bytes then denote that number |
| CompactTarget.RepresentableIffFits | wcash-genesis/src/lib.rs:828-830 | The size checks accept exactly the numbers below 2^256 |
| CompactTarget.CutBytesAreZero | wcash-genesis/src/lib.rs:852-855 | Bytes that fall off the front are zero, so the overflow check in the loop is unreachable |
| ExactWork.WorkIsExact | wcash-merge-miner/src/zcash_recovery.rs:225-229 | The computed work is floor(2^256 / (target + 1)) for every nonzero target, with no intermediate value over 256 bits |
| ExactWork.WorkStats.Record | wcash-merge-miner/src/zcash_recovery.rs:208-245 | Every counter stays the exact total of its bucket or its largest value, and the overflow flag is set exactly when a total does not fit or a zero target was seen |
| ExactWork.ExactWhileNotOverflowed | wcash-merge-miner/src/zcash_recovery.rs:193-206 | While the overflow flag is clear every bucket holds the exact work and the exact number of its shares |
| RecoveryAuthority.RunAdvances | wcash-merge-miner/src/zcash_recovery.rs:85-135 | However refreshes finish, a later cached sample has a larger attempt number than an earlier one, and closing is permanent |
| RecoveryAuthority.NewestWins | wcash-merge-miner/src/zcash_recovery.rs:119-130 | The cached sample is the newest of all that were offered while the authority was open |
| RecoveryAuthority.RefreshOutcome | wcash-merge-miner/src/zcash_recovery.rs:119-130 | A finished refresh of an open authority is cached if and only if it is newer than the cached one; a closed authority keeps what it had |
| RecoveryAuthority.ClosedIsUnknown | wcash-merge-miner/src/zcash_recovery.rs:132-179 | Every observation that begins after a close is Unknown, whatever late refreshes store |
| RecoveryAuthority.EvidenceIsFresh | wcash-merge-miner/src/zcash_recovery.rs:137-179 | Current and Stale are returned exactly on a readable sample started less than a second ago, and Current exactly when the job builds on its tip |
| RecoveryAuthority.Authority.BeginRefresh | wcash-merge-miner/src/zcash_recovery.rs:85-99 | A refresh takes the next attempt number, or closes the authority when none is left |
| RecoveryAuthority.Authority.Publish | wcash-merge-miner/src/zcash_recovery.rs:119-130 | A finished refresh replaces the cached sample only while open and only if it is newer |
| RecoveryAuthority.Authority.Observe | wcash-merge-miner/src/zcash_recovery.rs:164-179 | The observation is the specified function of the cached sample, and Unknown under contention |
| Payout.PrepareImpliesRecover | wcash-merge-miner/src/coordinator.rs:4117-4182 | Every coinbase that the preparation check accepts passes the recovery check on the same network and height without overflow, its total being the advertised value plus the fund |
| Payout.RecoveredIffFunded | wcash-merge-miner/src/coordinator.rs:4117-4182 | Above height zero the recovery check accepts exactly the coinbases that hold the mandatory output when due, pay in one mode, claim between gross subsidy and maximum as unbounded numbers, and keep a private payout private |
| Payout.AcceptedIffPaysPayee | wcash-merge-miner/src/coordinator.rs:1505-1714 | The preparation check accepts exactly the candidates within the funding limits that pay the advertised value, as an unbounded sum, to the payee alone and in one mode |
| Payout.PreparedPaysPayee | wcash-merge-miner/src/coordinator.rs:1505-1714 | A prepared coinbase pays the whole advertised value to the configured payee alone, beside the mandatory fund output |
| Payout.CheckedSumIsTotal | wcash-merge-miner/src/coordinator.rs:1767-1775 | A fold of checked additions over amounts overflows exactly when the whole sum does not fit |
| Payout.AttributedValue | wcash-merge-miner/src/coordinator.rs:1671-1700 | The loop over private actions returns their value to one receiver, or fails on an unopened or foreign action or an overflow |
| Payout.FundIndex | zebra-chain/src/parameters/network/subsidy/wcash_foundation.rs:111-126 | No index exactly while the fund is inactive, an error exactly when an output of the allocated amount to the fund script is due and missing, and otherwise the index of the first such output |

## Left out

- Error texts and error kinds: every failure is one `Err`.
- JSON syntax: the two readers' treatment of an explicit null for a boolean flag, of unknown fields and of number formats is not modelled.
- Files: path, lock, permission and symbolic-link checks are only the outcomes of an append or an open.
- Block validation, hashing, proof-of-work verification and trial decryption: parameters or free functions.
- ShareJournal.ShareJournal.ActivateJob: keeps `Valid` only for a positive clock, because a restart rejects a record without one; the step on the log is stated without this condition.
- ShareJournal.ShareJournal.MarkStatus: the same condition, for the same reason.
- ShareJournal.ShareJournal.RecordShare: keeps `Valid` only for winner blocks that pass validation, because a restart rejects others; the step on the log is stated without this condition.
- Admission.RetryAcknowledgedIff: for texts shorter than 2^64 bytes, because lengths are hashed in eight bytes.
- Refusals.BothAcceptOrRefuse: for such texts, and while the distinct shares are below the reader's limit.
- Acceptance.MayComeNext: for share limits below 2^64 - 1, of which the released one is a million.
- ShareJournal.Reopen: stated for files that the live journal wrote; `Open` covers every other file.
- Leases.Supervisor: poisoned mutexes and malformed candidate responses, which drop a lease before it is known, are not modelled.
- BatchProtocol.BatchLimits: pending weights are unbounded numbers, so an overflow of the machine word is not modelled.
- BatchProtocol.FailureProtocol: a message in the worker's hand when its task is cancelled is dropped without an answer, as in the code.
- BatchLoop.LoopIsRun: clients act between the branches of the loop; `BatchProtocol` interleaves them with the single steps of a branch.
- JournalOpening.RunOpensIffSound: behind the first unsound record only the growth of the log is modelled faithfully, because the state in memory is then no longer what the log denotes.
- RecoveryAuthority.Authority.Observe: reads the sample in one step; a close between its two checks is covered only as before or after it.
- The readiness poll's look at the worker task's own handle, which only ends the poll early.
- The redelivery cooldown, the candidate release calls and the diagnostics of reconciliation.
- Auxiliary nonce reservation, worker credentials, the Stratum front end, the pool backend protocol and the node itself: outside the components modelled here.
