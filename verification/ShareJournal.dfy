/** The live journal as the program runs it: a locked file and maps that every operation updates in place. */
module ShareJournal {
  import opened Common
  import opened Framing
  import opened Hex
  import opened JournalRecord
  import opened Accounting
  import opened Replay
  import opened Agreement
  import opened JournalModel
  import opened WriterCompat
  import opened LiveJournal
  import opened CrashRecovery
  import opened LiveMemory
  import opened JournalReader
  import opened AccountingReader
  import opened ReplayReader

  /** The maps in memory are what the log denotes. */
  ghost predicate InMemory(
    check: BlockCheck, log: seq<Record>, active: Option<ActiveJob>, seen: set<seq<byte>>,
    plain: map<Digest, Identity>, winning: map<Digest, Identity>, pending: map<WinnerKey, PendingWinner>)
  {
    && seen == Memory(check, log).seenJobIds && pending == Memory(check, log).pending
    && plain == Retained(log, active, AcceptedShare) && winning == Retained(log, active, WinnerOutbox)
  }

  /** The maps held beside the file. */
  datatype Maps = Maps(
    seen: set<seq<byte>>, plain: map<Digest, Identity>, winning: map<Digest, Identity>,
    pending: map<WinnerKey, PendingWinner>)

  /** A live journal whose maps are what its log denotes. */
  ghost predicate Kept(env: Env, j: Journal, m: Maps) {
    Live(env, j) && InMemory(env.check, j.log, j.active, m.seen, m.plain, m.winning, m.pending)
  }

  lemma {:induction false} ActivationRefines(
    env: Env, j: Journal, job: ActiveJob, now: u64, seen: set<seq<byte>>,
    plain: map<Digest, Identity>, winning: map<Digest, Identity>, pending: map<WinnerKey, PendingWinner>)
    requires Live(env, j) && InMemory(env.check, j.log, j.active, seen, plain, winning, pending)
    requires DecideActivation(seen, job, now).Write? && now > 0
    ensures InMemory(env.check, j.log + [ActivationRecord(job, now)], Some(job),
                     seen + {ParseCanonicalId(job.jobId).value}, map[], map[], pending)
  {
    var r := ActivationRecord(job, now);
    ActivationAccepted(env.check, j.log, job, now);
    MemoryAfterActivation(env.check, j.log, job, now);
    NewJobRetainsNothing(env.check, j.log, job, AcceptedShare);
    NewJobRetainsNothing(env.check, j.log, job, WinnerOutbox);
    RetainedAfter(j.log, r, job, AcceptedShare);
    RetainedAfter(j.log, r, job, WinnerOutbox);
  }

  lemma {:induction false} RetainedUnchanged(log: seq<Record>, r: Record, active: Option<ActiveJob>, tag: Tag)
    requires r.tag != tag
    ensures Retained(log + [r], active, tag) == Retained(log, active, tag)
  {
    if active.Some? { RetainedAfter(log, r, active.value, tag); }
  }

  lemma {:induction false} MarkRefines(
    env: Env, j: Journal, winner: PendingWinner, status: Status, now: u64, seen: set<seq<byte>>,
    plain: map<Digest, Identity>, winning: map<Digest, Identity>, pending: map<WinnerKey, PendingWinner>)
    requires Live(env, j) && InMemory(env.check, j.log, j.active, seen, plain, winning, pending)
    requires DecideStatus(pending, winner, status, now).Write? && now > 0
    ensures InMemory(env.check, j.log + [StatusRecord(winner, status, now)], j.active,
                     seen, plain, winning, Marked(pending, winner.key, status))
  {
    var r := StatusRecord(winner, status, now);
    StatusAccepted(env.check, j.log, winner, status, now);
    MemoryAfterMark(env.check, j.log, winner, status, now);
    RetainedUnchanged(j.log, r, j.active, AcceptedShare);
    RetainedUnchanged(j.log, r, j.active, WinnerOutbox);
  }

  lemma {:induction false} ShareRetained(
    log: seq<Record>, job: ActiveJob, worker: string, auth: Authentication, share: NativeShare, now: u64)
    requires auth != LegacyUnknown && (share.wcashBlock.Some? ==> share.wcashBlock.value.Ok?)
    ensures var r, id := ShareRecord(job, worker, auth, share, now), ShareIdOf(job.jobId, share.parentHash);
            && Retained(log + [r], Some(job), r.tag) == Retained(log, Some(job), r.tag)[id := IdentityOf(r, auth)]
            && (r.tag.AcceptedShare? || r.tag.WinnerOutbox?)
  {
    AuthenticationRoundTrip(auth);
    RetainedAfter(log, ShareRecord(job, worker, auth, share, now), job, ShareRecord(job, worker, auth, share, now).tag);
  }

  lemma {:induction false} ShareRefines(
    env: Env, j: Journal, job: ActiveJob, worker: string, auth: Authentication, share: NativeShare, now: u64,
    seen: set<seq<byte>>, plain: map<Digest, Identity>, winning: map<Digest, Identity>,
    pending: map<WinnerKey, PendingWinner>)
    requires Live(env, j) && j.active == Some(job)
    requires InMemory(env.check, j.log, j.active, seen, plain, winning, pending)
    requires DecideShare(j.active, plain, winning, pending, worker, auth, job.jobId, share, now).Write?
    requires BlocksValid(env.check, job, share)
    ensures share.wcashBlock.Some? ==> share.wcashBlock.value.Ok?
    ensures var r, id := ShareRecord(job, worker, auth, share, now), ShareIdOf(job.jobId, share.parentHash);
            InMemory(env.check, j.log + [r], j.active, seen,
                     if WinnerCount(share) == 0 then plain[id := IdentityOf(r, auth)] else plain,
                     if WinnerCount(share) == 0 then winning else winning[id := IdentityOf(r, auth)],
                     WithWinners(pending, job, share))
  {
    WrittenShareFacts(job, plain, winning, pending, worker, auth, share, now);
    var r := ShareRecord(job, worker, auth, share, now);
    LogFits(env.codec, j.log);
    ShareAccepted(env.check, j.log, job, worker, auth, share, now);
    NewShareIsFresh(env.check, j.log, job, share.parentHash);
    MemoryAfterShare(env.check, j.log, job, worker, auth, share, now);
    ShareRetained(j.log, job, worker, auth, share, now);
    RetainedUnchanged(j.log, r, j.active, if r.tag.WinnerOutbox? then AcceptedShare else WinnerOutbox);
  }

  /* ----- retries and limits ----- */

  lemma {:induction false} FingerprintIgnoresTime(
    job: ActiveJob, worker: string, auth: Authentication, share: NativeShare, now: u64, later: u64)
    requires share.wcashBlock.Some? ==> share.wcashBlock.value.Ok?
    ensures SameReplay(IdentityOf(ShareRecord(job, worker, auth, share, now), auth),
                       IdentityOf(ShareRecord(job, worker, auth, share, later), auth))
  {
  }

  /** A known share is acknowledged again to the same worker, at any time, and refused to every other one. */
  lemma {:induction false} KnownShareDecision(
    job: ActiveJob, plain: map<Digest, Identity>, winning: map<Digest, Identity>,
    pending: map<WinnerKey, PendingWinner>,
    worker: string, auth: Authentication, share: NativeShare, now: u64, other: string, later: u64)
    requires share.wcashBlock.Some? ==> share.wcashBlock.value.Ok?
    requires KnownIdentity(plain, winning, ShareIdOf(job.jobId, share.parentHash))
          == Some(IdentityOf(ShareRecord(job, worker, auth, share, now), auth))
    requires ValidWorkerName(worker) && auth != LegacyUnknown && later > 0
    ensures DecideShare(Some(job), plain, winning, pending, worker, auth, job.jobId, share, later) == NoChange
    ensures other != worker ==>
              DecideShare(Some(job), plain, winning, pending, other, auth, job.jobId, share, later) == Refuse
  {
    AuthenticationRoundTrip(auth);
    FingerprintIgnoresTime(job, worker, auth, share, now, later);
  }

  /** A share that was just recorded is known by its own identity. */
  lemma {:induction false} RecordedIsKnown(
    log: seq<Record>, job: ActiveJob, worker: string, auth: Authentication, share: NativeShare, now: u64)
    requires auth != LegacyUnknown && (share.wcashBlock.Some? ==> share.wcashBlock.value.Ok?)
    requires KnownIdentity(Retained(log, Some(job), AcceptedShare), Retained(log, Some(job), WinnerOutbox),
                           ShareIdOf(job.jobId, share.parentHash)).None?
    ensures var r := ShareRecord(job, worker, auth, share, now);
            KnownIdentity(Retained(log + [r], Some(job), AcceptedShare), Retained(log + [r], Some(job), WinnerOutbox),
                          ShareIdOf(job.jobId, share.parentHash)) == Some(IdentityOf(r, auth))
  {
    var r := ShareRecord(job, worker, auth, share, now);
    ShareRetained(log, job, worker, auth, share, now);
    RetainedUnchanged(log, r, Some(job), if r.tag.WinnerOutbox? then AcceptedShare else WinnerOutbox);
  }

  /**
   Retries are idempotent.  Once a share is recorded, recording it again under the same job is acknowledged
   without a new record, whenever it happens, and the same share from another worker is refused.
   */
  lemma {:induction false} RetryIsIdempotent(
    env: Env, j: Journal, job: ActiveJob, worker: string, auth: Authentication, share: NativeShare,
    now: u64, other: string, later: u64, io: Append)
    requires j.active == Some(job) && later > 0
    requires Decide(env, j, Share(worker, auth, job.jobId, share, now, Durable)).Write?
    ensures share.wcashBlock.Some? ==> share.wcashBlock.value.Ok?
    ensures var after := j.(log := j.log + [ShareRecord(job, worker, auth, share, now)]);
            && Decide(env, after, Share(worker, auth, job.jobId, share, later, io)) == NoChange
            && (other != worker ==> Decide(env, after, Share(other, auth, job.jobId, share, later, io)) == Refuse)
  {
    WrittenShareFacts(job, Retained(j.log, Some(job), AcceptedShare), Retained(j.log, Some(job), WinnerOutbox),
                      Memory(env.check, j.log).pending, worker, auth, share, now);
    var log := j.log + [ShareRecord(job, worker, auth, share, now)];
    RecordedIsKnown(j.log, job, worker, auth, share, now);
    KnownShareDecision(job, Retained(log, Some(job), AcceptedShare), Retained(log, Some(job), WinnerOutbox),
                       Memory(env.check, log).pending, worker, auth, share, now, other, later);
  }

  /** The flags that a status stands for: on the best chain, and with a conflicting witness. */
  function FlagsOf(status: Status): (bool, bool) {
    match status
    case Observed => (true, false)
    case Orphaned => (false, false)
    case Conflicting => (false, true)
    case Matured => (true, false)
  }

  predicate MarkedAs(
    before: map<WinnerKey, PendingWinner>, after: map<WinnerKey, PendingWinner>, key: WinnerKey, status: Status)
  {
    && after - {key} == before - {key}
    && (if status.Matured? then key !in after
        else key in after && (after[key].observedOnBestChain, after[key].conflictingWitness) == FlagsOf(status))
  }

  lemma {:induction false} DecidedMark(
    pending: map<WinnerKey, PendingWinner>, winner: PendingWinner, status: Status, now: u64)
    requires winner.key in pending
              && !(pending[winner.key].observedOnBestChain && pending[winner.key].conflictingWitness)
    ensures DecideStatus(pending, winner, status, now).NoChange? ==> MarkedAs(pending, pending, winner.key, status)
    ensures MarkedAs(pending, Marked(pending, winner.key, status), winner.key, status)
  {
  }

  /** A status mark that is acknowledged has taken effect, whether it wrote a record or found nothing to change. */
  lemma {:induction false} AcknowledgedMarkTakesEffect(
    env: Env, j: Journal, m: Maps, winner: PendingWinner, status: Status, now: u64, io: Append)
    requires Kept(env, j, m) && now > 0 && winner.key in m.pending
    requires Acknowledged(env, j, Mark(winner, status, now, io))
    ensures MarkedAs(m.pending, Memory(env.check, LiveStep(env, j, Mark(winner, status, now, io)).log).pending,
                     winner.key, status)
  {
    var d := DecideStatus(m.pending, winner, status, now);
    DecisionIs(env, j, m, Mark(winner, status, now, io));
    PerformFields(env.codec, j, d, Mark(winner, status, now, io));
    NeverBoth(env, j, m, winner.key);
    DecidedMark(m.pending, winner, status, now);
    if d.Write? { MarkRefines(env, j, winner, status, now, m.seen, m.plain, m.winning, m.pending); }
  }

  lemma {:induction false} NeverBoth(env: Env, j: Journal, m: Maps, key: WinnerKey)
    requires Kept(env, j, m) && key in m.pending
    ensures !(m.pending[key].observedOnBestChain && m.pending[key].conflictingWitness)
  {
    MemoryAgrees(env.check, j.log);
    assert key in LedgerOf(env.check, j.log).pending;
    assert GoodStatus(LedgerOf(env.check, j.log).pending[key]);
  }

  lemma {:induction false} InsertAtMostOne<K, V>(m: map<K, V>, k: K, v: V)
    ensures |m[k := v]| <= |m| + 1
  {
    if k in m { assert m[k := v].Keys == m.Keys; } else { InsertGrows(m, k, v); }
    assert |m[k := v]| == |m[k := v].Keys| && |m| == |m.Keys|;
  }

  function PlainShares(j: Journal): nat { |Retained(j.log, j.active, AcceptedShare)| }

  lemma {:induction false} ActivationStartsEmpty(env: Env, j: Journal, op: Op)
    requires Live(env, j) && op.Activate? && Decide(env, j, op).Write?
    ensures Retained(j.log + [Decide(env, j, op).record], Some(op.job), AcceptedShare) == map[]
  {
    NewJobRetainsNothing(env.check, j.log, op.job, AcceptedShare);
    RetainedAfter(j.log, Decide(env, j, op).record, op.job, AcceptedShare);
  }

  lemma {:induction false} ShareAddsOne(env: Env, j: Journal, op: Op)
    requires op.Share? && Decide(env, j, op).Write? && PlainShares(j) <= MAX_SHARES_PER_JOB
    ensures |Retained(j.log + [Decide(env, j, op).record], j.active, AcceptedShare)| <= MAX_SHARES_PER_JOB
  {
    var r := Decide(env, j, op).record;
    RetainedAfter(j.log, r, j.active.value, AcceptedShare);
    if r.tag.AcceptedShare? {
      assert PlainShares(j) < MAX_SHARES_PER_JOB;
      InsertAtMostOne(Retained(j.log, j.active, AcceptedShare), ShareIdOf(op.jobId, op.share.parentHash),
                      IdentityOf(r, op.auth));
      AuthenticationRoundTrip(op.auth);
    }
  }

  lemma {:induction false} StepKeepsShareLimit(env: Env, j: Journal, op: Op)
    requires Live(env, j) && Faithful(env.codec) && PlainShares(j) <= MAX_SHARES_PER_JOB
    ensures PlainShares(Step(env, j, op)) <= MAX_SHARES_PER_JOB
  {
    if op.Reopen? {
      RestartKeepsLive(env, j);
    } else {
      var d := Decide(env, j, op);
      PerformFields(env.codec, j, d, op);
      if d.Write? {
        match op
        case Activate(_, _, _) => ActivationStartsEmpty(env, j, op);
        case Share(_, _, _, _, _, _) => ShareAddsOne(env, j, op);
        case Mark(_, _, _, _) => RetainedUnchanged(j.log, d.record, j.active, AcceptedShare);
      }
    }
  }

  lemma {:induction false} RunKeepsShareLimit(env: Env, ops: seq<Op>)
    requires Faithful(env.codec) && SoundRun(env, EMPTY_JOURNAL, ops)
    ensures PlainShares(Run(env, EMPTY_JOURNAL, ops)) <= MAX_SHARES_PER_JOB
  {
    if ops == [] {
    } else {
      var n := |ops| - 1;
      RunKeepsShareLimit(env, ops[..n]);
      EmptyIsLive(env);
      RunKeepsLive(env, EMPTY_JOURNAL, ops[..n]);
      StepKeepsShareLimit(env, Run(env, EMPTY_JOURNAL, ops[..n]), ops[n]);
    }
  }

  lemma {:induction false} UsedJobsBounded(ctx: Context, rs: seq<Record>)
    requires AccountAll(ctx, rs).Ok?
    ensures |AccountAll(ctx, rs).value.usedJobs| <= MAX_JOURNAL_GENERATIONS
  {
    if rs == [] {
    } else {
      var n := |rs| - 1;
      UsedJobsBounded(ctx, rs[..n]);
      UsedJobsBoundedStep(ctx, AccountAll(ctx, rs[..n]).value, rs[n]);
    }
  }

  lemma {:induction false} UsedJobsBoundedStep(ctx: Context, l: Ledger, r: Record)
    requires AccountRecord(ctx, l, r).Ok? && |l.usedJobs| <= MAX_JOURNAL_GENERATIONS
    ensures |AccountRecord(ctx, l, r).value.usedJobs| <= MAX_JOURNAL_GENERATIONS
  {
    if IsShare(r.tag) {
      ShareRecordStep(ctx, l, r);
      var jobId := ValidateCanonical32(r.jobId).value;
      UsedJobsChecked(ctx.maxShares, l, jobId, CheckedShare(ctx, r).value);
      SetGrows(l.usedJobs, jobId);
    } else if r.tag.JobActivated? {
      SetGrows(l.usedJobs, ValidateCanonical32(r.jobId).value);
    }
  }

  lemma {:induction false} SetGrows<T>(s: set<T>, x: T)
    ensures |s + {x}| == |s| + if x in s then 0 else 1
  {
    if x in s { assert s + {x} == s; }
  }

  /** Memory stays bounded in every reachable state: shares of the active job, pending winners, and known jobs. */
  lemma {:induction false} MemoryIsBounded(env: Env, ops: seq<Op>)
    requires Faithful(env.codec) && SoundRun(env, EMPTY_JOURNAL, ops)
    ensures var j := Run(env, EMPTY_JOURNAL, ops);
            && |Retained(j.log, j.active, AcceptedShare)| <= MAX_SHARES_PER_JOB
            && |Memory(env.check, j.log).pending| <= MAX_PENDING_WINNERS
            && |Memory(env.check, j.log).seenJobIds| <= MAX_JOURNAL_GENERATIONS
  {
    var j := Run(env, EMPTY_JOURNAL, ops);
    EmptyIsLive(env);
    RunKeepsLive(env, EMPTY_JOURNAL, ops);
    RunKeepsShareLimit(env, ops);
    MemoryAgrees(env.check, j.log);
    SameSize(LedgerOf(env.check, j.log).pending, Memory(env.check, j.log).pending);
    UsedJobsBounded(FreeContext(env.check, j.log), j.log);
  }

  /** The maps after an activation. */
  function Activated(m: Maps, job: ActiveJob): Maps
    requires ParseCanonicalId(job.jobId).Some?
  {
    Maps(m.seen + {ParseCanonicalId(job.jobId).value}, map[], map[], m.pending)
  }

  /** The maps after a share of the active job was appended. */
  function Remembered(m: Maps, job: ActiveJob, worker: string, auth: Authentication, share: NativeShare, now: u64): Maps
    requires share.wcashBlock.Some? ==> share.wcashBlock.value.Ok?
  {
    var r, id := ShareRecord(job, worker, auth, share, now), ShareIdOf(job.jobId, share.parentHash);
    var m' := m.(pending := WithWinners(m.pending, job, share));
    if WinnerCount(share) == 0 then m'.(plain := m.plain[id := IdentityOf(r, auth)])
    else m'.(winning := m.winning[id := IdentityOf(r, auth)])
  }

  /** What an operation decides from the maps alone. */
  function DecideFrom(active: Option<ActiveJob>, m: Maps, op: Op): Decision
    requires !op.Reopen?
  {
    match op
    case Activate(job, now, _) => DecideActivation(m.seen, job, now)
    case Share(worker, auth, jobId, share, now, _) =>
      DecideShare(active, m.plain, m.winning, m.pending, worker, auth, jobId, share, now)
    case Mark(winner, status, now, _) => DecideStatus(m.pending, winner, status, now)
  }

  lemma {:induction false} WrittenFrom(active: Option<ActiveJob>, m: Maps, op: Op)
    requires !op.Reopen? && DecideFrom(active, m, op).Write?
    ensures op.Activate? ==> ParseCanonicalId(op.job.jobId).Some?
    ensures op.Share? ==> active.Some? && active.value.jobId == op.jobId
    ensures op.Share? ==> (op.share.wcashBlock.Some? ==> op.share.wcashBlock.value.Ok?)
    ensures op.Mark? ==> op.winner.key in m.pending
    ensures DecideFrom(active, m, op).record ==
            match op
            case Activate(job, now, _) => ActivationRecord(job, now)
            case Share(worker, auth, _, share, now, _) => ShareRecord(active.value, worker, auth, share, now)
            case Mark(winner, status, now, _) => StatusRecord(winner, status, now)
  {
  }

  /** The maps after an operation whose record was acknowledged. */
  ghost function MapsAfter(active: Option<ActiveJob>, m: Maps, op: Op): Maps
    requires !op.Reopen? && DecideFrom(active, m, op).Write?
  {
    WrittenFrom(active, m, op);
    match op
    case Activate(job, _, _) => Activated(m, job)
    case Share(worker, auth, _, share, now, _) => Remembered(m, active.value, worker, auth, share, now)
    case Mark(winner, status, _, _) => m.(pending := Marked(m.pending, winner.key, status))
  }

  lemma {:induction false} DecisionIs(env: Env, j: Journal, m: Maps, op: Op)
    requires Kept(env, j, m) && !op.Reopen?
    ensures Decide(env, j, op) == DecideFrom(j.active, m, op)
  {
  }

  /** The maps after an acknowledged operation are what the longer log denotes. */
  lemma {:induction false} MapsRefine(env: Env, j: Journal, m: Maps, op: Op)
    requires Kept(env, j, m) && !op.Reopen? && Sound(env.check, j.active, op) && DecideFrom(j.active, m, op).Write?
    ensures var m' := MapsAfter(j.active, m, op);
            InMemory(env.check, j.log + [DecideFrom(j.active, m, op).record],
                     if op.Activate? then Some(op.job) else j.active, m'.seen, m'.plain, m'.winning, m'.pending)
  {
    WrittenFrom(j.active, m, op);
    match op
    case Activate(job, now, _) => ActivationRefines(env, j, job, now, m.seen, m.plain, m.winning, m.pending);
    case Share(worker, auth, _, share, now, _) =>
      ShareRefines(env, j, j.active.value, worker, auth, share, now, m.seen, m.plain, m.winning, m.pending);
    case Mark(winner, status, now, _) =>
      MarkRefines(env, j, winner, status, now, m.seen, m.plain, m.winning, m.pending);
  }

  /** The log and the active job after a decision was carried out. */
  lemma {:induction false} PerformFields(codec: Codec, j: Journal, d: Decision, op: Op)
    requires !op.Reopen?
    ensures var (j', ok) := Perform(codec, j, d, op);
            && (d.Write? && ok ==>
                j'.log == j.log + [d.record] && j'.active == if op.Activate? then Some(op.job) else j.active)
            && (!(d.Write? && ok) ==> j'.log == j.log && j'.active == j.active)
  {
  }

  /** Carrying out a share or a mark is one append. */
  lemma {:induction false} PerformAppends(codec: Codec, j: Journal, r: Record, op: Op)
    requires op.Share? || op.Mark?
    ensures Perform(codec, j, Write(r), op) == AppendRecord(codec, j, r, op.io)
  {
  }

  /** Carrying out a decision keeps the journal live and its maps what the log denotes. */
  lemma {:induction false} StaysKept(env: Env, j: Journal, m: Maps, op: Op, j': Journal, m': Maps, ok: bool)
    requires Kept(env, j, m) && !op.Reopen?
    requires (j', ok) == Perform(env.codec, j, DecideFrom(j.active, m, op), op)
    requires m' == if ok && DecideFrom(j.active, m, op).Write? then MapsAfter(j.active, m, op) else m
    ensures j' == LiveStep(env, j, op) && ok == Acknowledged(env, j, op)
    ensures Sound(env.check, j.active, op) ==> Kept(env, j', m')
  {
    DecisionIs(env, j, m, op);
    PerformFields(env.codec, j, DecideFrom(j.active, m, op), op);
    if Sound(env.check, j.active, op) {
      LiveStepKeepsLive(env, j, op);
      if ok && DecideFrom(j.active, m, op).Write? { MapsRefine(env, j, m, op); }
    }
  }

  class ShareJournal {
    const env: Env
    var file: seq<byte>
    var bytesWritten: nat
    var poisoned: bool
    var activeJob: Option<ActiveJob>
    var seenJobIds: set<seq<byte>>
    var plainAttributions: map<Digest, Identity>
    var winnerAttributions: map<Digest, Identity>
    var pendingWinners: map<WinnerKey, PendingWinner>
    ghost var log: seq<Record>
    ghost var failed: Option<FailedAppend>

    ghost function Model(): Journal
      reads this
    {
      Journal(log, failed, poisoned, activeJob)
    }

    ghost function MapsNow(): Maps
      reads this
    {
      Maps(seenJobIds, plainAttributions, winnerAttributions, pendingWinners)
    }

    ghost predicate OnDisk()
      reads this
    {
      && file == Disk(env.codec, Model()) && bytesWritten == |Durably(env.codec, log)|
      && (failed.Some? ==> poisoned)
    }

    /** The maps are what the log denotes, and the file is the log with at most one failed append behind it. */
    ghost predicate Valid()
      reads this
    {
      OnDisk() && Kept(env, Model(), MapsNow())
    }

    constructor Rebuilt(env: Env, file: seq<byte>, length: nat, seen: set<seq<byte>>,
                        pending: map<WinnerKey, PendingWinner>, ghost records: seq<Record>)
      ensures this.env == env && this.file == file && bytesWritten == length
      ensures Model() == Journal(records, None, false, None)
      ensures seenJobIds == seen && pendingWinners == pending
      ensures plainAttributions == map[] && winnerAttributions == map[]
    {
      this.env, this.file, bytesWritten, poisoned, activeJob := env, file, length, false, None;
      seenJobIds, plainAttributions, winnerAttributions, pendingWinners := seen, map[], map[], pending;
      log, failed := records, None;
    }

    /** Appends one record and waits for it to be durable; `io` is what the operating system does. */
    method AppendSynced(r: Record, io: Append) returns (ok: bool)
      requires OnDisk()
      modifies `file, `bytesWritten, `poisoned, `log, `failed
      ensures OnDisk()
      ensures (Model(), ok) == AppendRecord(env.codec, old(Model()), r, io) && MapsNow() == old(MapsNow())
    {
      var encoded := env.codec.encode(r) + [NEWLINE];
      if poisoned || |encoded| > MAX_JOURNAL_RECORD_BYTES || bytesWritten + |encoded| > MAX_JOURNAL_BYTES {
        return false;
      }
      assert Tail(env.codec, failed) == [];
      match io {
      case PathLost =>
        poisoned := true;
        return false;
      case Torn(kept) =>
        file, poisoned := file + encoded[..Min(kept, |encoded|)], true;
        failed := Some(FailedAppend(r, kept));
        return false;
      case PathReplaced =>
        file, poisoned := file + encoded, true;
        failed := Some(FailedAppend(r, |encoded|));
        assert encoded[..|encoded|] == encoded;
        return false;
      case Durable =>
        DurablyAppend(env.codec, log, r);
        file, bytesWritten := file + encoded, bytesWritten + |encoded|;
        log := log + [r];
        return true;
      }
    }

    /** The checks of an activation, before anything is written. */
    method CheckActivation(job: ActiveJob, now: u64) returns (d: Decision)
      ensures d == DecideActivation(seenJobIds, job, now)
    {
      var jobId := ParseCanonicalId(job.jobId);
      if jobId.None? || ParseCanonicalId(job.childHashDisplay).None? { return Refuse; }
      if job.childHeight == 0 || job.parentHeight == 0 { return Refuse; }
      if jobId.value in seenJobIds || |seenJobIds| >= MAX_JOURNAL_GENERATIONS { return Refuse; }
      return Write(ActivationRecord(job, now));
    }

    /** The maps of a job that was just activated. */
    method MakeCurrent(job: ActiveJob)
      requires ParseCanonicalId(job.jobId).Some?
      modifies `seenJobIds, `plainAttributions, `winnerAttributions, `activeJob
      ensures activeJob == Some(job) && MapsNow() == Activated(old(MapsNow()), job)
    {
      seenJobIds := seenJobIds + {ParseCanonicalId(job.jobId).value};
      plainAttributions, winnerAttributions := map[], map[];
      activeJob := Some(job);
    }

    /** Appends an activation and then makes its job current. */
    method TryActivate(job: ActiveJob, now: u64, io: Append) returns (ok: bool)
      requires OnDisk()
      modifies this
      ensures OnDisk()
      ensures var d := DecideActivation(old(seenJobIds), job, now);
              && (Model(), ok) == Perform(env.codec, old(Model()), d, Activate(job, now, io))
              && (ok && d.Write? ==> ParseCanonicalId(job.jobId).Some?)
              && MapsNow() == if ok && d.Write? then Activated(old(MapsNow()), job) else old(MapsNow())
    {
      var d := CheckActivation(job, now);
      if !d.Write? { return false; }
      ok := AppendSynced(d.record, io);
      if ok { MakeCurrent(job); }
    }

    /** Makes a new job current once its activation is durable. */
    method ActivateJob(job: ActiveJob, now: u64, io: Append) returns (ok: bool)
      requires Valid()
      modifies this
      ensures Model() == LiveStep(env, old(Model()), Activate(job, now, io))
      ensures ok == Acknowledged(env, old(Model()), Activate(job, now, io))
      ensures now > 0 ==> Valid()
    {
      ghost var j, m := Model(), MapsNow();
      ok := TryActivate(job, now, io);
      StaysKept(env, j, m, Activate(job, now, io), Model(), MapsNow(), ok);
    }

    /** The checks of a status mark, before anything is written. */
    method CheckMark(winner: PendingWinner, status: Status, now: u64) returns (d: Decision)
      ensures d == DecideStatus(pendingWinners, winner, status, now)
    {
      if winner.key !in pendingWinners { return NoChange; }
      var current := pendingWinners[winner.key];
      if current.jobId != winner.jobId || current.blockHashDisplay != winner.blockHashDisplay
         || current.height != winner.height || current.blockBytes != winner.blockBytes { return Refuse; }
      match status {
      case Observed => if current.observedOnBestChain && !current.conflictingWitness { return NoChange; }
      case Orphaned => if !current.observedOnBestChain && !current.conflictingWitness { return NoChange; }
      case Conflicting =>
        if current.key.chain != Wcash { return Refuse; }
        if current.conflictingWitness { return NoChange; }
      case Matured => if !current.observedOnBestChain || current.conflictingWitness { return Refuse; }
      }
      return Write(StatusRecord(winner, status, now));
    }

    /** Moves the flags of one pending winner, or drops it. */
    method ApplyMark(key: WinnerKey, status: Status)
      requires key in pendingWinners
      modifies `pendingWinners
      ensures pendingWinners == Marked(old(pendingWinners), key, status)
    {
      if status.Matured? {
        pendingWinners := pendingWinners - {key};
      } else {
        var current := pendingWinners[key];
        current := current.(observedOnBestChain := status.Observed?, conflictingWitness := status.Conflicting?);
        pendingWinners := pendingWinners[key := current];
      }
    }

    /** Appends a status record and then applies it. */
    method TryMark(winner: PendingWinner, status: Status, now: u64, io: Append) returns (ok: bool)
      requires OnDisk()
      modifies this
      ensures OnDisk()
      ensures var d := DecideStatus(old(pendingWinners), winner, status, now);
              && (Model(), ok) == Perform(env.codec, old(Model()), d, Mark(winner, status, now, io))
              && MapsNow() == if ok && d.Write?
                              then old(MapsNow()).(pending := Marked(old(pendingWinners), winner.key, status))
                              else old(MapsNow())
    {
      var d := CheckMark(winner, status, now);
      if !d.Write? { return d.NoChange?; }
      ok := AppendSynced(d.record, io);
      if ok { ApplyMark(winner.key, status); }
    }

    /** Applies a status to a pending winner once the status record is durable. */
    method MarkStatus(winner: PendingWinner, status: Status, now: u64, io: Append) returns (ok: bool)
      requires Valid()
      modifies this
      ensures Model() == LiveStep(env, old(Model()), Mark(winner, status, now, io))
      ensures ok == Acknowledged(env, old(Model()), Mark(winner, status, now, io))
      ensures now > 0 ==> Valid()
    {
      ghost var j, m := Model(), MapsNow();
      ok := TryMark(winner, status, now, io);
      StaysKept(env, j, m, Mark(winner, status, now, io), Model(), MapsNow(), ok);
    }

    /** The checks of a share, before anything is written. */
    method CheckShare(
      worker: string, auth: Authentication, jobId: string, share: NativeShare, now: u64)
      returns (d: Decision)
      ensures d == DecideShare(activeJob, plainAttributions, winnerAttributions, pendingWinners, worker, auth, jobId,
                               share, now)
      ensures d.Write? ==> activeJob.Some? && (share.wcashBlock.Some? ==> share.wcashBlock.value.Ok?)
    {
      if !ValidWorkerName(worker) || activeJob.None? || activeJob.value.jobId != jobId { return Refuse; }
      if share.wcashBlock.Some? && share.wcashBlock.value.Err? { return Refuse; }
      var id := ShareIdOf(jobId, share.parentHash);
      var isNetworkWinner := share.wcashBlock.Some? || share.zcashBlock.Some?;
      var r := ShareRecord(activeJob.value, worker, auth, share, now);
      if now == 0 || ParseAuthentication(r.workerAuthentication).None? { return Refuse; }
      var known := KnownIdentity(plainAttributions, winnerAttributions, id);
      if known.Some? { return if SameReplay(known.value, IdentityOf(r, auth)) then NoChange else Refuse; }
      if !isNetworkWinner && |plainAttributions| >= MAX_SHARES_PER_JOB { return Refuse; }
      if isNetworkWinner && |pendingWinners| + AdditionalWinners(pendingWinners, id, share) > MAX_PENDING_WINNERS {
        return Refuse;
      }
      return Write(r);
    }

    /** Remembers a durable share: its identity, and a pending winner per chain that it wins. */
    method Remember(job: ActiveJob, worker: string, auth: Authentication, share: NativeShare, now: u64)
      requires share.wcashBlock.Some? ==> share.wcashBlock.value.Ok?
      modifies `plainAttributions, `winnerAttributions, `pendingWinners
      ensures MapsNow() == Remembered(old(MapsNow()), job, worker, auth, share, now)
    {
      var r := ShareRecord(job, worker, auth, share, now);
      var id := ShareIdOf(job.jobId, share.parentHash);
      if share.wcashBlock.Some? || share.zcashBlock.Some? {
        winnerAttributions := winnerAttributions[id := IdentityOf(r, auth)];
        if share.wcashBlock.Some? {
          pendingWinners := pendingWinners[WinnerKey(id, Wcash) := WcashWinner(job, id, share.wcashBlock.value.value)];
        }
        if share.zcashBlock.Some? {
          var winner := ZcashWinner(job, id, share.parentHash, share.zcashBlock.value);
          pendingWinners := pendingWinners[WinnerKey(id, Zcash) := winner];
        }
      } else {
        plainAttributions := plainAttributions[id := IdentityOf(r, auth)];
      }
    }

    /** Appends a share record that was decided on, and then remembers the share. */
    method CommitShare(r: Record, worker: string, auth: Authentication, share: NativeShare, now: u64, io: Append)
      returns (ok: bool)
      requires OnDisk() && activeJob.Some? && (share.wcashBlock.Some? ==> share.wcashBlock.value.Ok?)
      modifies this
      ensures OnDisk()
      ensures (Model(), ok) == AppendRecord(env.codec, old(Model()), r, io)
      ensures MapsNow() == if ok then Remembered(old(MapsNow()), old(activeJob).value, worker, auth, share, now)
                           else old(MapsNow())
    {
      ok := AppendSynced(r, io);
      if ok { Remember(activeJob.value, worker, auth, share, now); }
    }

    /** Records a share that passes the checks. */
    method TryShare(worker: string, auth: Authentication, jobId: string, share: NativeShare, now: u64, io: Append)
      returns (ok: bool)
      requires OnDisk()
      modifies this
      ensures OnDisk()
      ensures var d := DecideShare(old(activeJob), old(plainAttributions), old(winnerAttributions), old(pendingWinners),
                                   worker, auth, jobId, share, now);
              && (Model(), ok) == Perform(env.codec, old(Model()), d, Share(worker, auth, jobId, share, now, io))
              && (d.Write? ==> old(activeJob).Some? && (share.wcashBlock.Some? ==> share.wcashBlock.value.Ok?))
              && MapsNow() == if ok && d.Write?
                              then Remembered(old(MapsNow()), old(activeJob).value, worker, auth, share, now)
                              else old(MapsNow())
    {
      var d := CheckShare(worker, auth, jobId, share, now);
      if !d.Write? { return d.NoChange?; }
      ghost var j := Model();
      ok := CommitShare(d.record, worker, auth, share, now, io);
      PerformAppends(env.codec, j, d.record, Share(worker, auth, jobId, share, now, io));
    }

    /** Records a share once: an equal retry is acknowledged again, and nothing is written twice. */
    method RecordShare(worker: string, auth: Authentication, jobId: string, share: NativeShare, now: u64, io: Append)
      returns (id: Option<Digest>)
      requires Valid()
      modifies this
      ensures Model() == LiveStep(env, old(Model()), Share(worker, auth, jobId, share, now, io))
      ensures id == if Acknowledged(env, old(Model()), Share(worker, auth, jobId, share, now, io))
                    then Some(ShareIdOf(jobId, share.parentHash)) else None
      ensures Sound(env.check, old(activeJob), Share(worker, auth, jobId, share, now, io)) ==> Valid()
    {
      ghost var j, m := Model(), MapsNow();
      var ok := TryShare(worker, auth, jobId, share, now, io);
      StaysKept(env, j, m, Share(worker, auth, jobId, share, now, io), Model(), MapsNow(), ok);
      return if ok then Some(ShareIdOf(jobId, share.parentHash)) else None;
    }
  }

  /**
   Opens a journal: the accounting reader must accept the whole file, then the replay rebuilds the maps,
   and an unterminated tail is cut off.  The file may arrive in any chunks, and differently for each reader.
   */
  method Open(env: Env, disk: seq<byte>, first: seq<seq<byte>>, second: seq<seq<byte>>)
    returns (r: Result<ShareJournal>)
    requires Flatten(first) == disk && forall i :: 0 <= i < |first| ==> first[i] != []
    requires Flatten(second) == disk && forall i :: 0 <= i < |second| ==> second[i] != []
    ensures r.Ok? <==> OpenDisk(env, Released(env.check), disk).Ok?
    ensures r.Ok? ==>
              var rs := OpenDisk(env, Released(env.check), disk).value;
              && fresh(r.value) && r.value.env == env
              && r.value.Model() == Journal(rs, None, false, None)
              && r.value.file == Join(Split(disk).lines) && r.value.bytesWritten == |r.value.file|
              && r.value.seenJobIds == ReplayAll(Released(env.check), rs).value.seenJobIds
              && r.value.pendingWinners == ReplayAll(Released(env.check), rs).value.pending
              && r.value.plainAttributions == map[] && r.value.winnerAttributions == map[]
  {
    var ctx := Released(env.check);
    if |disk| > MAX_JOURNAL_BYTES { return Err; }
    var snapshot := ReadAccountingSnapshot(env.codec, ctx, first);
    if snapshot.Err? { return Err; }
    ghost var rs := DecodeAll(env.codec.decode, Split(disk).lines).value;
    FoldIsReplay(ctx, rs);
    var reader := new ByteReader(second);
    var replayer := new Replayer();
    var ok := replayer.ReplayStream(env.codec.decode, ctx, reader);
    if !ok { return Err; }
    SplitTerminatedPrefix(disk);
    var file := disk[..replayer.completeBytes];
    var journal := new ShareJournal.Rebuilt(env, file, replayer.completeBytes, replayer.seenJobIds,
                                            replayer.pendingWinners, rs);
    return Ok(journal);
  }

  lemma {:induction false} RestartKept(env: Env, j: Journal, m: Maps)
    requires Live(env, j) && Faithful(env.codec)
    requires OpenDisk(env, Released(env.check), Disk(env.codec, j)).Ok?
    requires m.plain == map[] && m.winning == map[]
    requires ReplayAll(Released(env.check), Complete(env.codec, j)).Ok?
    requires m.seen == ReplayAll(Released(env.check), Complete(env.codec, j)).value.seenJobIds
    requires m.pending == ReplayAll(Released(env.check), Complete(env.codec, j)).value.pending
    ensures Restart(env, j) == Journal(Complete(env.codec, j), None, false, None)
    ensures Kept(env, Restart(env, j), m)
  {
    ReopenRebuilds(env, j);
    RestartKeepsLive(env, j);
  }

  /** Reopening what a live journal left behind gives a live journal again. */
  method Reopen(env: Env, ghost j: Journal, disk: seq<byte>, first: seq<seq<byte>>, second: seq<seq<byte>>)
    returns (r: Result<ShareJournal>)
    requires Live(env, j) && Faithful(env.codec) && disk == Disk(env.codec, j)
    requires Flatten(first) == disk && forall i :: 0 <= i < |first| ==> first[i] != []
    requires Flatten(second) == disk && forall i :: 0 <= i < |second| ==> second[i] != []
    ensures Accepts(env.check, Complete(env.codec, j))
    ensures r.Ok? <==> DistinctShares(env.check, Complete(env.codec, j)) <= MAX_ACCOUNTING_SHARES
    ensures r.Ok? ==> fresh(r.value) && r.value.env == env && r.value.Model() == Restart(env, j) && r.value.Valid()
  {
    r := Open(env, disk, first, second);
    ReopenRebuilds(env, j);
    if r.Ok? {
      DiskSplits(env.codec, j);
      RestartKept(env, j, r.value.MapsNow());
      assert Durably(env.codec, Complete(env.codec, j)) + [] == Durably(env.codec, Complete(env.codec, j));
    }
  }
}
