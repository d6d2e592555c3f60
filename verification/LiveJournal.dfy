/**
 Every reachable state of the live journal: both interpreters accept its log, its memory is
 what the log denotes, and at most one unacknowledged record lies behind it.
 */
module LiveJournal {
  import opened Common
  import opened Hex
  import opened JournalRecord
  import opened Accounting
  import opened Replay
  import opened Agreement
  import opened Conservation
  import opened JournalModel
  import opened WriterCompat

  /** Both interpreters accept the log when no share limit binds. */
  predicate Accepts(check: BlockCheck, log: seq<Record>) {
    AccountAll(FreeContext(check, log), log).Ok? && ReplayAll(FreeContext(check, log), log).Ok?
  }

  function LedgerOf(check: BlockCheck, log: seq<Record>): Ledger
    requires Accepts(check, log)
  {
    AccountAll(FreeContext(check, log), log).value
  }

  /** The number of distinct shares in an accepted log. */
  function DistinctShares(check: BlockCheck, log: seq<Record>): nat
    requires Accepts(check, log)
  {
    |LedgerOf(check, log).accepted|
  }

  lemma {:induction false} LedgerSize(ctx: Context, rs: seq<Record>)
    requires AccountAll(ctx, rs).Ok?
    ensures |AccountAll(ctx, rs).value.accepted| <= |rs|
  {
    if rs == [] {
    } else {
      var n := |rs| - 1;
      var l, r := AccountAll(ctx, rs[..n]).value, rs[n];
      LedgerSize(ctx, rs[..n]);
      if IsShare(r.tag) {
        AcceptedGrowsChecked(ctx.maxShares, l, ValidateCanonical32(r.jobId).value, CheckedShare(ctx, r).value);
      }
    }
  }

  lemma {:induction false} IdentitySize(ctx: Context, rs: seq<Record>)
    requires AccountAll(ctx, rs).Ok? && ReplayAll(ctx, rs).Ok? && ctx.maxShares <= ctx.maxWinnerShares
    ensures |ReplayAll(ctx, rs).value.identities| <= |AccountAll(ctx, rs).value.accepted|
  {
    ReplayFollows(ctx, rs);
    LedgerRemembers(ctx, rs);
    KeysBound(ReplayAll(ctx, rs).value.identities, AccountAll(ctx, rs).value.accepted);
  }

  /** An accepted log has the same meaning under every limit that its distinct shares fit. */
  lemma {:induction false} SameMeaning(check: BlockCheck, log: seq<Record>, ctx: Context)
    requires Accepts(check, log) && ctx.check == check
    requires DistinctShares(check, log) <= ctx.maxShares && DistinctShares(check, log) <= ctx.maxWinnerShares
    ensures AccountAll(ctx, log) == AccountAll(FreeContext(check, log), log)
    ensures ReplayAll(ctx, log) == ReplayAll(FreeContext(check, log), log)
  {
    IdentitySize(FreeContext(check, log), log);
    LimitIrrelevant(FreeContext(check, log), ctx, log);
    ReplayLimitIrrelevant(FreeContext(check, log), ctx, log);
  }

  /** Reading one more record: both interpreters step from where the log left them. */
  lemma {:induction false} OneMore(check: BlockCheck, log: seq<Record>, r: Record)
    requires Accepts(check, log)
    ensures var ctx := FreeContext(check, log + [r]);
            && AccountAll(ctx, log + [r]) == AccountRecord(ctx, LedgerOf(check, log), r)
            && ReplayAll(ctx, log + [r]) == ReplayRecord(ctx, Memory(check, log), r)
            && AccountAll(ctx, log) == Ok(LedgerOf(check, log))
            && ReplayAll(ctx, log) == Ok(Memory(check, log))
            && |LedgerOf(check, log).accepted| < ctx.maxShares
  {
    var ctx := FreeContext(check, log + [r]);
    LedgerSize(FreeContext(check, log), log);
    SameMeaning(check, log, ctx);
    assert (log + [r])[..|log|] == log;
  }

  /** What the two accepted states have in common. */
  lemma {:induction false} MemoryAgrees(check: BlockCheck, log: seq<Record>)
    requires Accepts(check, log)
    ensures Agree(LedgerOf(check, log), Memory(check, log))
    ensures GoodPending(LedgerOf(check, log).pending)
    ensures |LedgerOf(check, log).pending| <= MAX_PENDING_WINNERS
  {
    var ctx := FreeContext(check, log);
    ReplayFollows(ctx, log);
    PendingAlwaysGood(ctx, log);
    assert PendingCount(ctx, log) <= MAX_PENDING_WINNERS;
  }

  /** Accounting decides: a record that it accepts is accepted by the replay unless the outbox overflows. */
  lemma {:induction false} AcceptsOneMore(check: BlockCheck, log: seq<Record>, r: Record)
    requires Accepts(check, log)
    ensures var a := AccountRecord(FreeContext(check, log + [r]), LedgerOf(check, log), r);
            Accepts(check, log + [r]) <==> a.Ok? && |a.value.pending| <= MAX_PENDING_WINNERS
  {
    var ctx := FreeContext(check, log + [r]);
    OneMore(check, log, r);
    assert (log + [r])[..|log|] == log;
    if AccountAll(ctx, log + [r]).Ok? {
      ReplayFollows(ctx, log + [r]);
      ReplayFollows(ctx, log);
    }
  }

  /* ----- the writer's records are accepted ----- */

  lemma {:induction false} ActivationStep(ctx: Context, l: Ledger, job: ActiveJob, now: u64)
    requires ParseCanonicalId(job.jobId).Some? && ParseCanonicalId(job.childHashDisplay).Some?
    requires job.childHeight > 0 && job.parentHeight > 0
    requires ParseCanonicalId(job.jobId).value !in l.usedJobs && |l.usedJobs| < MAX_JOURNAL_GENERATIONS
    ensures AccountRecord(ctx, l, ActivationRecord(job, now)) ==
            if now > 0 then Ok(l.(usedJobs := l.usedJobs + {ParseCanonicalId(job.jobId).value})) else Err
  {
    CanonicalParsersAgree(job.jobId);
    CanonicalParsersAgree(job.childHashDisplay);
  }

  /** An activation that the writer appends is accepted exactly when its timestamp is positive. */
  lemma {:induction false} ActivationAccepted(check: BlockCheck, log: seq<Record>, job: ActiveJob, now: u64)
    requires Accepts(check, log)
    requires DecideActivation(Memory(check, log).seenJobIds, job, now).Write?
    ensures Accepts(check, log + [ActivationRecord(job, now)]) <==> now > 0
  {
    var r := ActivationRecord(job, now);
    MemoryAgrees(check, log);
    AcceptsOneMore(check, log, r);
    ActivationStep(FreeContext(check, log + [r]), LedgerOf(check, log), job, now);
  }

  lemma {:induction false} ChainRoundTrip(chain: Chain)
    ensures ParseChain(Some(ChainName(chain))) == Some(chain)
  {
  }

  lemma {:induction false} StatusFields(winner: PendingWinner, status: Status, now: u64)
    requires ValidateCanonical32(winner.jobId).Some? && ValidateCanonical32(winner.blockHashDisplay).Some?
    requires winner.height > 0
    ensures ValidStatusFields(StatusRecord(winner, status, now)) <==> now > 0
  {
    ChainRoundTrip(winner.key.chain);
  }

  /** The live filter lets through exactly the transitions that the accounting rules allow. */
  lemma {:induction false} StatusEffectAllowed(
    pending: map<WinnerKey, PendingWinner>, winner: PendingWinner, status: Status, now: u64, p: PendingStatus)
    requires winner.key in pending && SameWinner(winner.key, p, pending[winner.key]) && !(p.observed && p.conflicting)
    requires DecideStatus(pending, winner, status, now).Write?
    ensures EffectOf(StatusTag(status), winner.key.chain, p).Ok?
    ensures p.jobId == winner.jobId && p.blockHash == winner.blockHashDisplay && p.height == winner.height
  {
  }

  lemma {:induction false} StatusStep(
    pending: map<WinnerKey, PendingStatus>, live: map<WinnerKey, PendingWinner>,
    winner: PendingWinner, status: Status, now: u64)
    requires SamePending(pending, live) && GoodPending(pending) && DecideStatus(live, winner, status, now).Write?
    ensures ApplyWinnerStatus(pending, StatusRecord(winner, status, now)).Ok? <==> now > 0
    ensures ValidateCanonical32(winner.jobId).Some?
  {
    var p, r := pending[winner.key], StatusRecord(winner, status, now);
    StatusEffectAllowed(live, winner, status, now, p);
    StatusFields(winner, status, now);
    ChainRoundTrip(winner.key.chain);
    assert r.shareId == Some(Canonical(winner.key.shareId)) && r.tag == StatusTag(status);
    assert WinnerKey(r.shareId.value.digest, ParseChain(r.chain).value) == winner.key;
  }

  lemma {:induction false} StatusRecordStep(ctx: Context, l: Ledger, r: Record)
    requires IsStatus(r.tag) && r.version == JOURNAL_VERSION && ValidateCanonical32(r.jobId).Some?
    ensures AccountRecord(ctx, l, r).Ok? <==> ApplyWinnerStatus(l.pending, r).Ok?
    ensures AccountRecord(ctx, l, r).Ok? ==> |AccountRecord(ctx, l, r).value.pending| <= |l.pending|
  {
    if ApplyWinnerStatus(l.pending, r).Ok? {
      StatusKeepsKeys(l.pending, r);
      KeysBound(ApplyWinnerStatus(l.pending, r).value, l.pending);
    }
  }

  /** A status record that the writer appends is accepted exactly when its timestamp is positive. */
  lemma {:induction false} StatusAccepted(
    check: BlockCheck, log: seq<Record>, winner: PendingWinner, status: Status, now: u64)
    requires Accepts(check, log) && DecideStatus(Memory(check, log).pending, winner, status, now).Write?
    ensures Accepts(check, log + [StatusRecord(winner, status, now)]) <==> now > 0
  {
    var r, l := StatusRecord(winner, status, now), LedgerOf(check, log);
    MemoryAgrees(check, log);
    AcceptsOneMore(check, log, r);
    StatusStep(l.pending, Memory(check, log).pending, winner, status, now);
    StatusRecordStep(FreeContext(check, log + [r]), l, r);
  }

  /* ----- shares ----- */

  /** The job fields that `activate_job` checked before it made a job current. */
  predicate GoodJob(job: ActiveJob) {
    && ValidateCanonical32(job.jobId).Some? && ValidateCanonical32(job.childHashDisplay).Some?
    && job.childHeight > 0 && job.parentHeight > 0
  }

  predicate BlockValid(
    check: BlockCheck, block: seq<byte>, hash: string, height: u32, chain: Chain, parent: seq<byte>)
  {
    |block| <= MAX_WINNER_BLOCK_BYTES && check(block, hash, height, chain) == Some(parent)
  }

  /** The winner blocks of a share pass exact-block validation for the active job. */
  predicate BlocksValid(check: BlockCheck, job: ActiveJob, share: NativeShare) {
    && (share.wcashBlock.Some? && share.wcashBlock.value.Ok? ==>
        BlockValid(check, share.wcashBlock.value.value, job.childHashDisplay, job.childHeight, Wcash, share.parentHash))
    && (share.zcashBlock.Some? ==>
        BlockValid(check, share.zcashBlock.value, DisplayHash(share.parentHash), job.parentHeight, Zcash,
                   share.parentHash))
  }

  lemma {:induction false} BlockTextRoundTrip(block: seq<byte>)
    ensures DecodeBoundedBlock(Some(HexEncode(block)))
         == if |block| <= MAX_WINNER_BLOCK_BYTES then Ok(block) else Err
  {
    DecodeEncode(block);
  }

  lemma {:induction false} WinnerBlockWritten(
    check: BlockCheck, chain: Chain, hash: string, height: u32, block: seq<byte>, parent: seq<byte>)
    requires height > 0
    ensures ValidateWinnerBlock(check, chain, hash, Some(height), Some(HexEncode(block)), parent)
         == if BlockValid(check, block, hash, height, chain, parent) then Ok(block) else Err
  {
    BlockTextRoundTrip(block);
  }

  lemma {:induction false} TargetText(target: TargetBytes)
    ensures ValidateCanonical32(DisplayHash(target)).Some?
    ensures exists i :: 0 <= i < 32 && ValidateCanonical32(DisplayHash(target)).value[i] != 0
  {
    EncodedIsCanonical(Reversed(target));
    assert NonZero(target);
    var i :| 0 <= i < 32 && target[i] != 0;
    assert Reversed(target)[31 - i] == target[i];
  }

  lemma {:induction false} ShareFieldsWritten(
    job: ActiveJob, worker: string, auth: Authentication, share: NativeShare, now: u64)
    requires GoodJob(job) && ValidWorkerName(worker) && now > 0 && auth != LegacyUnknown
    requires share.wcashBlock.Some? ==> share.wcashBlock.value.Ok?
    ensures ValidShareFields(ShareRecord(job, worker, auth, share, now))
    ensures ValidateShareId(ShareRecord(job, worker, auth, share, now)) == Ok(ShareIdOf(job.jobId, share.parentHash))
  {
    EncodedIsCanonical(share.parentHash);
    TargetText(share.target);
  }

  /** How many chains a share wins. */
  function WinnerCount(share: NativeShare): nat {
    (if share.wcashBlock.Some? then 1 else 0) + (if share.zcashBlock.Some? then 1 else 0)
  }

  lemma {:induction false} WcashWritten(check: BlockCheck, r: Record, job: ActiveJob, share: NativeShare, id: Digest)
    requires GoodJob(job) && (share.wcashBlock.Some? ==> share.wcashBlock.value.Ok?)
    requires r.wcashBlock == BlockText(CompletedWcash(share)) && r.wcashCandidate == Some(share.wcashBlock.Some?)
    requires r.wcashBlockHash == Some(job.childHashDisplay) && r.wcashHeight == Some(job.childHeight)
    ensures var w := WcashPart(check, r, id, share.parentHash);
            && (w.Ok? <==> BlocksValid(check, job, share.(zcashBlock := None)))
            && (w.Ok? ==> |w.value.0| == WinnerCount(share.(zcashBlock := None)))
  {
    if share.wcashBlock.Some? {
      WinnerBlockWritten(check, Wcash, job.childHashDisplay, job.childHeight, share.wcashBlock.value.value,
                         share.parentHash);
    }
  }

  lemma {:induction false} ZcashWritten(check: BlockCheck, r: Record, job: ActiveJob, share: NativeShare, id: Digest)
    requires GoodJob(job)
    requires r.zcashBlock == BlockText(share.zcashBlock) && r.zcashCandidate == Some(share.zcashBlock.Some?)
    requires r.zcashHeight == Some(job.parentHeight)
    ensures var z := ZcashPart(check, r, id, share.parentHash);
            && (z.Ok? <==> BlocksValid(check, job, share.(wcashBlock := None)))
            && (z.Ok? ==> |z.value.0| == WinnerCount(share.(wcashBlock := None)))
  {
    if share.zcashBlock.Some? {
      WinnerBlockWritten(check, Zcash, DisplayHash(share.parentHash), job.parentHeight, share.zcashBlock.value,
                         share.parentHash);
    }
  }

  lemma {:induction false} BlocksWritten(
    check: BlockCheck, job: ActiveJob, worker: string, auth: Authentication, share: NativeShare, now: u64)
    requires GoodJob(job) && (share.wcashBlock.Some? ==> share.wcashBlock.value.Ok?)
    ensures var r, id := ShareRecord(job, worker, auth, share, now), ShareIdOf(job.jobId, share.parentHash);
            var w := ValidateWinnerBlocks(check, r, id);
            && (w.Ok? <==> BlocksValid(check, job, share))
            && (w.Ok? ==> |w.value.entries| == WinnerCount(share))
  {
    var r, id := ShareRecord(job, worker, auth, share, now), ShareIdOf(job.jobId, share.parentHash);
    EncodedIsCanonical(share.parentHash);
    WcashWritten(check, r, job, share, id);
    ZcashWritten(check, r, job, share, id);
  }

  lemma {:induction false} ShareChecked(
    ctx: Context, job: ActiveJob, worker: string, auth: Authentication, share: NativeShare, now: u64)
    requires GoodJob(job) && ValidWorkerName(worker) && now > 0 && auth != LegacyUnknown
    requires share.wcashBlock.Some? ==> share.wcashBlock.value.Ok?
    ensures var c := CheckedShare(ctx, ShareRecord(job, worker, auth, share, now));
            && (c.Ok? <==> BlocksValid(ctx.check, job, share))
            && (c.Ok? ==> c.value.id == ShareIdOf(job.jobId, share.parentHash))
            && (c.Ok? ==> |c.value.winners.entries| == WinnerCount(share))
  {
    ShareFieldsWritten(job, worker, auth, share, now);
    BlocksWritten(ctx.check, job, worker, auth, share, now);
  }

  lemma {:induction false} InsertFresh(pending: map<WinnerKey, PendingStatus>, c: Checked)
    requires OwnWinners(c) && forall k :: k in pending ==> k.shareId != c.id
    ensures InsertWinners(pending, c.winners.entries).Ok?
    ensures |InsertWinners(pending, c.winners.entries).value| == |pending| + |c.winners.entries|
  {
    var es := c.winners.entries;
    if |es| == 2 {
      assert es[1..] == [es[1]] && es[1..][1..] == [];
      assert InsertWinners(pending[es[0].0 := es[0].1], [es[1]]).Ok?;
    } else if |es| == 1 {
      assert es[1..] == [];
    }
    InsertSize(pending, es);
  }

  /** A share whose identifier is new enters any ledger of an accepted log. */
  lemma {:induction false} FreshShareStep(maxShares: nat, l: Ledger, jobId: seq<byte>, c: Checked)
    requires jobId in l.usedJobs && c.id !in l.accepted && |l.accepted| < maxShares
    requires ApplyShare(l.snapshot, c.share).Ok? && OwnWinners(c)
    requires forall k :: k in l.pending ==> k.shareId in l.accepted
    ensures AccountChecked(maxShares, l, jobId, c).Ok?
    ensures |AccountChecked(maxShares, l, jobId, c).value.pending| == |l.pending| + |c.winners.entries|
  {
    InsertFresh(l.pending, c);
  }

  lemma {:induction false} RetainedHas(log: seq<Record>, job: ActiveJob, r: Record)
    requires r in log && r.jobId == job.jobId && r.shareId.Some? && r.shareId.value.Canonical?
    requires ParseAuthentication(r.workerAuthentication).Some?
    ensures r.shareId.value.digest in Retained(log, Some(job), r.tag)
  {
    var n := |log| - 1;
    if log[n] != r {
      assert r in log[..n];
      RetainedHas(log[..n], job, r);
    }
  }

  /** A share of the active job that is in the log is retained for the retry comparison. */
  lemma {:induction false} NewShareIsFresh(check: BlockCheck, log: seq<Record>, job: ActiveJob, parent: Hash32)
    requires Accepts(check, log) && ValidateCanonical32(job.jobId).Some?
    requires KnownIdentity(Retained(log, Some(job), AcceptedShare), Retained(log, Some(job), WinnerOutbox),
                           ShareIdOf(job.jobId, parent)).None?
    ensures ShareIdOf(job.jobId, parent) !in LedgerOf(check, log).accepted
  {
    var ctx, l, id := FreeContext(check, log), LedgerOf(check, log), ShareIdOf(job.jobId, parent);
    if id in l.accepted {
      LedgerRemembers(ctx, log);
      RecordsOfAll(log);
      var r := OriginOf(ctx, log)[id];
      assert Behind(CheckerOf(ctx), l, id, r);
      OriginFacts(ctx, r, id);
      DecodeLength(r.jobId);
      DecodeLength(job.jobId);
      ShareIdInjective(r.jobId, ValidateCanonical32(r.parentHashLe.value).value, job.jobId, parent);
      RetainedHas(log, job, r);
    }
  }

  lemma {:induction false} OriginFacts(ctx: Context, r: Record, id: Digest)
    requires IsShare(r.tag) && CheckedShare(ctx, r).Ok? && CheckedShare(ctx, r).value.id == id
    ensures r.shareId == Some(Canonical(id)) && ParseAuthentication(r.workerAuthentication).Some?
    ensures r.parentHashLe.Some? && ValidateCanonical32(r.parentHashLe.value).Some?
    ensures id == ShareIdOf(r.jobId, ValidateCanonical32(r.parentHashLe.value).value)
  {
  }

  lemma {:induction false} AdditionalCount(l: Ledger, m: ReplayState, id: Digest, share: NativeShare)
    requires Agree(l, m) && id !in l.accepted && forall k :: k in l.pending ==> k.shareId in l.accepted
    ensures AdditionalWinners(m.pending, id, share) == WinnerCount(share)
    ensures |m.pending| == |l.pending|
  {
    SameSize(l.pending, m.pending);
  }

  lemma {:induction false} WrittenShareFacts(
    job: ActiveJob, plain: map<Digest, Identity>, winning: map<Digest, Identity>,
    pending: map<WinnerKey, PendingWinner>,
    worker: string, auth: Authentication, share: NativeShare, now: u64)
    requires DecideShare(Some(job), plain, winning, pending, worker, auth, job.jobId, share, now).Write?
    ensures ValidWorkerName(worker) && now > 0 && auth != LegacyUnknown
    ensures share.wcashBlock.Some? ==> share.wcashBlock.value.Ok?
    ensures KnownIdentity(plain, winning, ShareIdOf(job.jobId, share.parentHash)).None?
    ensures WinnerCount(share) > 0 ==>
              |pending| + AdditionalWinners(pending, ShareIdOf(job.jobId, share.parentHash), share)
              <= MAX_PENDING_WINNERS
  {
    assert ParseAuthentication(Some(AuthenticationName(LegacyUnknown))).None?;
  }

  /** A checked share of a known job, with an identifier that is new, in the ledger of an accepted log. */
  lemma {:induction false} CheckedShareEnters(check: BlockCheck, log: seq<Record>, jobId: seq<byte>, c: Checked)
    requires Accepts(check, log) && |log| < U64_MAX
    requires jobId in LedgerOf(check, log).usedJobs && c.id !in LedgerOf(check, log).accepted && OwnWinners(c)
    ensures var a := AccountChecked(|log| + 1, LedgerOf(check, log), jobId, c);
            a.Ok? && |a.value.pending| == |LedgerOf(check, log).pending| + |c.winners.entries|
  {
    var ctx := FreeContext(check, log);
    LedgerSize(ctx, log);
    LedgerRemembers(ctx, log);
    CountersNeverOverflow(ctx, log, c.share);
    FreshShareStep(|log| + 1, LedgerOf(check, log), jobId, c);
  }

  lemma {:induction false} ShareRecordStep(ctx: Context, l: Ledger, r: Record)
    requires IsShare(r.tag) && r.version == JOURNAL_VERSION && ValidateCanonical32(r.jobId).Some?
    ensures AccountRecord(ctx, l, r) ==
            match CheckedShare(ctx, r) case Err => Err
            case Ok(c) => AccountChecked(ctx.maxShares, l, ValidateCanonical32(r.jobId).value, c)
  {
  }

  /** What accounting makes of a new share of the active job. */
  lemma {:induction false} NewShareOutcome(
    check: BlockCheck, log: seq<Record>, job: ActiveJob,
    worker: string, auth: Authentication, share: NativeShare, now: u64)
    requires Accepts(check, log) && |log| < U64_MAX
    requires GoodJob(job) && ValidateCanonical32(job.jobId).value in LedgerOf(check, log).usedJobs
    requires ValidWorkerName(worker) && now > 0 && auth != LegacyUnknown
    requires share.wcashBlock.Some? ==> share.wcashBlock.value.Ok?
    requires ShareIdOf(job.jobId, share.parentHash) !in LedgerOf(check, log).accepted
    ensures var a := AccountRecord(Context(check, |log| + 1, |log| + 1), LedgerOf(check, log),
                                   ShareRecord(job, worker, auth, share, now));
            && (a.Ok? <==> BlocksValid(check, job, share))
            && (a.Ok? ==> |a.value.pending| == |LedgerOf(check, log).pending| + WinnerCount(share))
  {
    var ctx, r := Context(check, |log| + 1, |log| + 1), ShareRecord(job, worker, auth, share, now);
    ShareChecked(ctx, job, worker, auth, share, now);
    ShareRecordStep(ctx, LedgerOf(check, log), r);
    if BlocksValid(check, job, share) {
      CheckedOwnWinners(ctx, r);
      CheckedShareEnters(check, log, ValidateCanonical32(job.jobId).value, CheckedShare(ctx, r).value);
    }
  }

  lemma {:induction false} PendingWereAccepted(check: BlockCheck, log: seq<Record>)
    requires Accepts(check, log)
    ensures forall k :: k in LedgerOf(check, log).pending ==> k.shareId in LedgerOf(check, log).accepted
  {
    LedgerRemembers(FreeContext(check, log), log);
  }

  /** Accounting decides, for a record that leaves room in the outbox. */
  lemma {:induction false} AcceptedIf(check: BlockCheck, log: seq<Record>, r: Record, valid: bool, extra: nat)
    requires Accepts(check, log)
    requires extra > 0 ==> |LedgerOf(check, log).pending| + extra <= MAX_PENDING_WINNERS
    requires var a := AccountRecord(Context(check, |log| + 1, |log| + 1), LedgerOf(check, log), r);
             (a.Ok? <==> valid) && (a.Ok? ==> |a.value.pending| == |LedgerOf(check, log).pending| + extra)
    ensures Accepts(check, log + [r]) <==> valid
  {
    MemoryAgrees(check, log);
    AcceptsOneMore(check, log, r);
  }

  /** A new share of the active job that leaves room in the outbox. */
  lemma {:induction false} NewShareAccepted(
    check: BlockCheck, log: seq<Record>, job: ActiveJob,
    worker: string, auth: Authentication, share: NativeShare, now: u64)
    requires Accepts(check, log) && |log| < U64_MAX
    requires GoodJob(job) && ValidateCanonical32(job.jobId).value in LedgerOf(check, log).usedJobs
    requires ValidWorkerName(worker) && now > 0 && auth != LegacyUnknown
    requires share.wcashBlock.Some? ==> share.wcashBlock.value.Ok?
    requires ShareIdOf(job.jobId, share.parentHash) !in LedgerOf(check, log).accepted
    requires WinnerCount(share) > 0 ==> |LedgerOf(check, log).pending| + WinnerCount(share) <= MAX_PENDING_WINNERS
    ensures Accepts(check, log + [ShareRecord(job, worker, auth, share, now)]) <==> BlocksValid(check, job, share)
  {
    NewShareOutcome(check, log, job, worker, auth, share, now);
    AcceptedIf(check, log, ShareRecord(job, worker, auth, share, now), BlocksValid(check, job, share),
               WinnerCount(share));
  }

  /** A share that the writer appends is accepted exactly when its winner blocks pass validation. */
  lemma {:induction false} ShareAccepted(
    check: BlockCheck, log: seq<Record>, job: ActiveJob,
    worker: string, auth: Authentication, share: NativeShare, now: u64)
    requires Accepts(check, log) && |log| < U64_MAX
    requires GoodJob(job) && ValidateCanonical32(job.jobId).value in LedgerOf(check, log).usedJobs
    requires DecideShare(Some(job), Retained(log, Some(job), AcceptedShare), Retained(log, Some(job), WinnerOutbox),
                         Memory(check, log).pending, worker, auth, job.jobId, share, now).Write?
    ensures Accepts(check, log + [ShareRecord(job, worker, auth, share, now)]) <==> BlocksValid(check, job, share)
  {
    WrittenShareFacts(job, Retained(log, Some(job), AcceptedShare), Retained(log, Some(job), WinnerOutbox),
                      Memory(check, log).pending, worker, auth, share, now);
    NewShareIsFresh(check, log, job, share.parentHash);
    MemoryAgrees(check, log);
    PendingWereAccepted(check, log);
    AdditionalCount(LedgerOf(check, log), Memory(check, log), ShareIdOf(job.jobId, share.parentHash), share);
    NewShareAccepted(check, log, job, worker, auth, share, now);
  }
}
