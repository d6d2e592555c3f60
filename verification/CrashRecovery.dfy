/**
 Crash refinement of the share journal.  Over every run of activations, shares, status marks and
 restarts, with a failed or torn append anywhere, the disk holds the acknowledged records and at
 most one more, and reopening it rebuilds exactly what its complete records denote.
 */
module CrashRecovery {
  import opened Common
  import opened Framing
  import opened Hex
  import opened JournalRecord
  import opened Accounting
  import opened Replay
  import opened Agreement
  import opened JournalModel
  import opened WriterCompat
  import opened LiveJournal

  /* ----- the bytes of a log ----- */

  lemma {:induction false} DurablyAppend(codec: Codec, log: seq<Record>, r: Record)
    ensures Encoded(codec, log + [r]) == Encoded(codec, log) + [codec.encode(r)]
    ensures Durably(codec, log + [r]) == Durably(codec, log) + Frame(codec, r)
  {
    JoinAppend(Encoded(codec, log), [codec.encode(r)]);
    JoinCons(codec.encode(r), []);
    assert [codec.encode(r)] + [] == [codec.encode(r)];
    assert codec.encode(r) + [NEWLINE] + Join([]) == Frame(codec, r);
  }

  lemma {:induction false} JoinLength(lines: seq<seq<byte>>)
    ensures |lines| <= |Join(lines)|
  {
    if lines == [] {
    } else {
      JoinLength(lines[1..]);
    }
  }

  lemma {:induction false} DecodeEncoded(codec: Codec, log: seq<Record>)
    requires Faithful(codec)
    ensures DecodeAll(codec.decode, Encoded(codec, log)) == Some(log)
  {
    if log == [] {
    } else {
      var n := |log| - 1;
      DecodeEncoded(codec, log[..n]);
      DurablyAppend(codec, log[..n], log[n]);
      assert log[..n] + [log[n]] == log;
      assert Encoded(codec, log)[..n] == Encoded(codec, log[..n]);
    }
  }

  /** The bytes behind the last newline of the disk. */
  function TornTail(codec: Codec, j: Journal): seq<byte> {
    if Complete(codec, j) == j.log then Tail(codec, j.failed) else []
  }

  /** The disk is the complete records, one line each, and what is torn behind them. */
  lemma {:induction false} DiskIs(codec: Codec, j: Journal)
    ensures Disk(codec, j) == Durably(codec, Complete(codec, j)) + TornTail(codec, j)
  {
    if Complete(codec, j) != j.log {
      DurablyAppend(codec, j.log, j.failed.value.record);
    }
  }

  lemma {:induction false} TornTailHasNoNewline(codec: Codec, j: Journal)
    requires Faithful(codec)
    ensures NEWLINE !in TornTail(codec, j)
    ensures j.failed.Some? ==> |TornTail(codec, j)| <= |codec.encode(j.failed.value.record)|
  {
    if j.failed.Some? {
      var line, kept := codec.encode(j.failed.value.record), j.failed.value.kept;
      if kept <= |line| {
        assert Frame(codec, j.failed.value.record)[..kept] == line[..kept];
        assert NEWLINE !in line;
      } else {
        assert |Complete(codec, j)| == |j.log| + 1;
      }
    }
  }

  lemma {:induction false} EncodedNewlineFree(codec: Codec, log: seq<Record>)
    requires Faithful(codec)
    ensures NewlineFree(Encoded(codec, log))
  {
  }

  /** Splitting the disk gives back the complete records; only an unacknowledged one can be torn. */
  lemma {:induction false} DiskSplits(codec: Codec, j: Journal)
    requires Faithful(codec)
    ensures Split(Disk(codec, j)) == Frames(Encoded(codec, Complete(codec, j)), TornTail(codec, j))
  {
    DiskIs(codec, j);
    TornTailHasNoNewline(codec, j);
    EncodedNewlineFree(codec, Complete(codec, j));
    SplitJoin(Encoded(codec, Complete(codec, j)), TornTail(codec, j));
  }

  /* ----- the invariant of a live journal ----- */

  predicate FramesFit(codec: Codec, log: seq<Record>) {
    forall i :: 0 <= i < |log| ==> |Frame(codec, log[i])| <= MAX_JOURNAL_RECORD_BYTES
  }

  predicate Fits(codec: Codec, log: seq<Record>) {
    FramesFit(codec, log) && |Durably(codec, log)| <= MAX_JOURNAL_BYTES
  }

  /** The active job was activated in this log. */
  predicate ActiveIn(check: BlockCheck, log: seq<Record>, active: Option<ActiveJob>)
    requires Accepts(check, log)
  {
    active.Some? ==>
      GoodJob(active.value) && ValidateCanonical32(active.value.jobId).value in LedgerOf(check, log).usedJobs
  }

  /** Both interpreters accept the log, also with the one record that was not acknowledged if it is complete. */
  predicate Live(env: Env, j: Journal) {
    && Accepts(env.check, j.log) && Fits(env.codec, j.log) && ActiveIn(env.check, j.log, j.active)
    && Accepts(env.check, Complete(env.codec, j))
    && (j.failed.Some? ==> j.poisoned && Fits(env.codec, j.log + [j.failed.value.record]))
  }

  /** What a caller must supply: positive timestamps, and winner blocks that pass validation. */
  predicate Sound(check: BlockCheck, active: Option<ActiveJob>, op: Op) {
    match op
    case Activate(_, now, _) => now > 0
    case Share(_, _, _, share, _, _) => active.Some? ==> BlocksValid(check, active.value, share)
    case Mark(_, _, now, _) => now > 0
    case Reopen => true
  }

  /** The operation put one more complete record on the disk, acknowledged or not. */
  predicate Wrote(env: Env, j: Journal, op: Op) {
    !op.Reopen? && Complete(env.codec, LiveStep(env, j, op)) != Complete(env.codec, j)
  }

  /** Whatever the operation put on the disk, its caller supplied what it must. */
  predicate SoundStep(env: Env, j: Journal, op: Op) { Wrote(env, j, op) ==> Sound(env.check, j.active, op) }

  lemma {:induction false} LogFits(codec: Codec, log: seq<Record>)
    requires Fits(codec, log)
    ensures |log| < U64_MAX
  {
    JoinLength(Encoded(codec, log));
  }

  lemma {:induction false} UsedJobsGrow(check: BlockCheck, log: seq<Record>, r: Record)
    requires Accepts(check, log) && Accepts(check, log + [r])
    ensures LedgerOf(check, log).usedJobs <= LedgerOf(check, log + [r]).usedJobs
    ensures r.tag.JobActivated? || IsShare(r.tag) ==>
              ValidateCanonical32(r.jobId).Some?
              && ValidateCanonical32(r.jobId).value in LedgerOf(check, log + [r]).usedJobs
    ensures r.tag.JobActivated? ==> ValidateCanonical32(r.jobId).value !in LedgerOf(check, log).usedJobs
  {
    OneMore(check, log, r);
    UsedJobsStep(FreeContext(check, log + [r]), LedgerOf(check, log), r);
  }

  lemma {:induction false} UsedJobsStep(ctx: Context, l: Ledger, r: Record)
    requires AccountRecord(ctx, l, r).Ok?
    ensures var l' := AccountRecord(ctx, l, r).value;
            && l.usedJobs <= l'.usedJobs
            && (r.tag.JobActivated? || IsShare(r.tag) ==>
                ValidateCanonical32(r.jobId).Some? && ValidateCanonical32(r.jobId).value in l'.usedJobs)
            && (r.tag.JobActivated? ==> ValidateCanonical32(r.jobId).value !in l.usedJobs)
  {
    if IsShare(r.tag) {
      ShareRecordStep(ctx, l, r);
      UsedJobsChecked(ctx.maxShares, l, ValidateCanonical32(r.jobId).value, CheckedShare(ctx, r).value);
    }
  }

  lemma {:induction false} UsedJobsChecked(maxShares: nat, l: Ledger, jobId: seq<byte>, c: Checked)
    requires AccountChecked(maxShares, l, jobId, c).Ok?
    ensures AccountChecked(maxShares, l, jobId, c).value.usedJobs == l.usedJobs + {jobId}
  {
  }

  lemma {:induction false} WrittenFields(env: Env, j: Journal, op: Op)
    requires !op.Reopen? && Decide(env, j, op).Write?
    ensures op.Activate? ==> GoodJob(op.job) && Decide(env, j, op).record == ActivationRecord(op.job, op.now)
    ensures op.Share? ==> j.active.Some? && op.jobId == j.active.value.jobId
    ensures op.Share? ==> (op.share.wcashBlock.Some? ==> op.share.wcashBlock.value.Ok?)
    ensures op.Share? ==> Decide(env, j, op).record == ShareRecord(j.active.value, op.worker, op.auth, op.share, op.now)
    ensures op.Mark? ==> Decide(env, j, op).record == StatusRecord(op.winner, op.status, op.now)
  {
    if op.Activate? {
      CanonicalParsersAgree(op.job.jobId);
      CanonicalParsersAgree(op.job.childHashDisplay);
    }
  }

  /** A record that a live journal decides to append is accepted exactly when its caller is sound. */
  lemma {:induction false} WrittenIsAccepted(env: Env, j: Journal, op: Op)
    requires Live(env, j) && !op.Reopen? && Decide(env, j, op).Write?
    ensures Accepts(env.check, j.log + [Decide(env, j, op).record]) <==> Sound(env.check, j.active, op)
  {
    WrittenFields(env, j, op);
    LogFits(env.codec, j.log);
    match op
    case Activate(job, now, _) => ActivationAccepted(env.check, j.log, job, now);
    case Share(worker, auth, _, share, now, _) =>
      ShareAccepted(env.check, j.log, j.active.value, worker, auth, share, now);
    case Mark(winner, status, now, _) => StatusAccepted(env.check, j.log, winner, status, now);
  }

  lemma {:induction false} FitsAppend(codec: Codec, log: seq<Record>, r: Record)
    requires Fits(codec, log) && |Frame(codec, r)| <= MAX_JOURNAL_RECORD_BYTES
    requires |Durably(codec, log)| + |Frame(codec, r)| <= MAX_JOURNAL_BYTES
    ensures Fits(codec, log + [r])
  {
    DurablyAppend(codec, log, r);
  }

  lemma {:induction false} ActiveStays(check: BlockCheck, log: seq<Record>, r: Record, active: Option<ActiveJob>)
    requires Accepts(check, log) && Accepts(check, log + [r]) && ActiveIn(check, log, active)
    ensures ActiveIn(check, log + [r], active)
    ensures r.tag.JobActivated? ==>
              forall job: ActiveJob :: GoodJob(job) && job.jobId == r.jobId ==> ActiveIn(check, log + [r], Some(job))
  {
    UsedJobsGrow(check, log, r);
  }

  lemma {:induction false} AppendKeepsLive(env: Env, j: Journal, r: Record, io: Append)
    requires Live(env, j)
    requires Complete(env.codec, AppendRecord(env.codec, j, r, io).0) != Complete(env.codec, j) ==>
               Accepts(env.check, j.log + [r])
    ensures Live(env, AppendRecord(env.codec, j, r, io).0)
    ensures AppendRecord(env.codec, j, r, io).1 ==>
              AppendRecord(env.codec, j, r, io).0 == j.(log := j.log + [r]) && Accepts(env.check, j.log + [r])
  {
    if !j.poisoned && |Frame(env.codec, r)| <= MAX_JOURNAL_RECORD_BYTES
       && |Durably(env.codec, j.log)| + |Frame(env.codec, r)| <= MAX_JOURNAL_BYTES {
      FitsAppend(env.codec, j.log, r);
      assert |j.log + [r]| != |j.log|;
      if io.Durable? { ActiveStays(env.check, j.log, r, j.active); }
    }
  }

  /** Making a job current does not touch the disk. */
  lemma {:induction false} StepCompletes(env: Env, j: Journal, op: Op)
    requires !op.Reopen? && Decide(env, j, op).Write?
    ensures Complete(env.codec, LiveStep(env, j, op))
         == Complete(env.codec, AppendRecord(env.codec, j, Decide(env, j, op).record, op.io).0)
  {
  }

  lemma {:induction false} LiveStepKeepsLive(env: Env, j: Journal, op: Op)
    requires Live(env, j) && !op.Reopen? && SoundStep(env, j, op)
    ensures Live(env, LiveStep(env, j, op))
  {
    match Decide(env, j, op)
    case Refuse =>
    case NoChange =>
    case Write(r) =>
      StepCompletes(env, j, op);
      WrittenIsAccepted(env, j, op);
      WrittenFields(env, j, op);
      AppendKeepsLive(env, j, r, op.io);
      if op.Activate? && Acknowledged(env, j, op) { ActiveStays(env.check, j.log, r, j.active); }
  }

  /* ----- reopening ----- */

  lemma {:induction false} LedgerWithinLimit(ctx: Context, rs: seq<Record>)
    requires AccountAll(ctx, rs).Ok?
    ensures |AccountAll(ctx, rs).value.accepted| <= ctx.maxShares
  {
    if rs == [] {
    } else {
      var n := |rs| - 1;
      var l, r := AccountAll(ctx, rs[..n]).value, rs[n];
      LedgerWithinLimit(ctx, rs[..n]);
      if IsShare(r.tag) {
        ShareRecordStep(ctx, l, r);
        AcceptedGrowsChecked(ctx.maxShares, l, ValidateCanonical32(r.jobId).value, CheckedShare(ctx, r).value);
      }
    }
  }

  /** The released reader accepts a log that the live writer built iff its distinct shares fit its limit. */
  lemma {:induction false} ReleasedAccepts(check: BlockCheck, log: seq<Record>)
    requires Accepts(check, log)
    ensures var ctx := Released(check);
            && (AccountAll(ctx, log).Ok? <==> DistinctShares(check, log) <= MAX_ACCOUNTING_SHARES)
            && (AccountAll(ctx, log).Ok? ==> AccountAll(ctx, log) == Ok(LedgerOf(check, log))
                                             && ReplayAll(ctx, log) == Ok(Memory(check, log)))
  {
    var ctx, free := Released(check), FreeContext(check, log);
    if DistinctShares(check, log) <= MAX_ACCOUNTING_SHARES {
      SameMeaning(check, log, ctx);
    } else if AccountAll(ctx, log).Ok? {
      LedgerSize(ctx, log);
      LimitIrrelevant(ctx, free, log);
      LedgerWithinLimit(ctx, log);
    }
  }

  lemma {:induction false} CompleteIsAccepted(env: Env, j: Journal)
    requires Live(env, j)
    ensures Accepts(env.check, Complete(env.codec, j)) && Fits(env.codec, Complete(env.codec, j))
  {
  }

  lemma {:induction false} EncodedBounded(codec: Codec, log: seq<Record>, tail: seq<byte>)
    requires FramesFit(codec, log) && |tail| <= MAX_JOURNAL_RECORD_BYTES
    ensures Bounded(Frames(Encoded(codec, log), tail))
  {
    forall i | 0 <= i < |log| ensures |Encoded(codec, log)[i]| <= MAX_JOURNAL_RECORD_BYTES {
      assert |Frame(codec, log[i])| <= MAX_JOURNAL_RECORD_BYTES;
    }
  }

  lemma {:induction false} DiskFits(env: Env, j: Journal)
    requires Live(env, j) && Faithful(env.codec)
    ensures |Disk(env.codec, j)| <= MAX_JOURNAL_BYTES && Readable(Disk(env.codec, j))
  {
    var codec := env.codec;
    DiskSplits(codec, j);
    TornTailHasNoNewline(codec, j);
    ReadableIffBounded(Disk(codec, j));
    if j.failed.Some? {
      var r := j.failed.value.record;
      DurablyAppend(codec, j.log, r);
      assert (j.log + [r])[|j.log|] == r;
    }
    EncodedBounded(codec, Complete(codec, j), TornTail(codec, j));
  }

  /**
   Reopening.  A crash at any point leaves a disk that opens again exactly when the distinct shares of its
   complete records fit the reader's limit, and then gives back those records and what they denote.
   */
  lemma {:induction false} ReopenRebuilds(env: Env, j: Journal)
    requires Live(env, j) && Faithful(env.codec)
    ensures Accepts(env.check, Complete(env.codec, j))
    ensures OpenDisk(env, Released(env.check), Disk(env.codec, j))
         == if DistinctShares(env.check, Complete(env.codec, j)) <= MAX_ACCOUNTING_SHARES
            then Ok(Complete(env.codec, j)) else Err
    ensures DistinctShares(env.check, Complete(env.codec, j)) <= MAX_ACCOUNTING_SHARES ==>
              ReplayAll(Released(env.check), Complete(env.codec, j)) == Ok(Memory(env.check, Complete(env.codec, j)))
  {
    CompleteIsAccepted(env, j);
    DiskFits(env, j);
    DiskSplits(env.codec, j);
    DecodeEncoded(env.codec, Complete(env.codec, j));
    ReleasedAccepts(env.check, Complete(env.codec, j));
  }

  lemma {:induction false} RestartKeepsLive(env: Env, j: Journal)
    requires Live(env, j) && Faithful(env.codec)
    ensures Live(env, Restart(env, j))
    ensures Restart(env, j).log == j.log || Restart(env, j).log == Complete(env.codec, j)
  {
    ReopenRebuilds(env, j);
    CompleteIsAccepted(env, j);
  }

  /* ----- whole runs ----- */

  const EMPTY_JOURNAL := Journal([], None, false, None)

  lemma {:induction false} StepKeepsLive(env: Env, j: Journal, op: Op)
    requires Live(env, j) && Faithful(env.codec) && SoundStep(env, j, op)
    ensures Live(env, Step(env, j, op))
  {
    if op.Reopen? { RestartKeepsLive(env, j); } else { LiveStepKeepsLive(env, j, op); }
  }

  /** Every operation of a run that put a record on the disk met its caller's obligations where it was called. */
  predicate SoundRun(env: Env, j: Journal, ops: seq<Op>) {
    ops != [] ==>
      var n := |ops| - 1;
      SoundRun(env, j, ops[..n]) && SoundStep(env, Run(env, j, ops[..n]), ops[n])
  }

  lemma {:induction false} RunKeepsLive(env: Env, j: Journal, ops: seq<Op>)
    requires Live(env, j) && Faithful(env.codec) && SoundRun(env, j, ops)
    ensures Live(env, Run(env, j, ops))
  {
    if ops == [] {
    } else {
      var n := |ops| - 1;
      RunKeepsLive(env, j, ops[..n]);
      StepKeepsLive(env, Run(env, j, ops[..n]), ops[n]);
    }
  }

  lemma {:induction false} EmptyIsLive(env: Env)
    ensures Live(env, EMPTY_JOURNAL)
  {
  }

  lemma {:induction false} PerformExtends(codec: Codec, j: Journal, d: Decision, op: Op)
    requires !op.Reopen?
    ensures j.log <= Perform(codec, j, d, op).0.log
  {
    match d
    case Refuse =>
    case NoChange =>
    case Write(r) => assert j.log <= AppendRecord(codec, j, r, op.io).0.log;
  }

  /** One step never loses or reorders a record that was acknowledged before it. */
  lemma {:induction false} StepExtends(env: Env, j: Journal, op: Op)
    requires Live(env, j) && Faithful(env.codec)
    ensures j.log <= Step(env, j, op).log
  {
    if op.Reopen? { RestartKeepsLive(env, j); } else { PerformExtends(env.codec, j, Decide(env, j, op), op); }
  }

  /** Acknowledged records survive: every later log starts with them, across any failures and restarts. */
  lemma {:induction false} AcknowledgedSurvive(env: Env, j: Journal, ops: seq<Op>)
    requires Live(env, j) && Faithful(env.codec) && SoundRun(env, j, ops)
    ensures j.log <= Run(env, j, ops).log
  {
    if ops == [] {
    } else {
      var n := |ops| - 1;
      AcknowledgedSurvive(env, j, ops[..n]);
      RunKeepsLive(env, j, ops[..n]);
      StepExtends(env, Run(env, j, ops[..n]), ops[n]);
    }
  }

  /** Exactly one more complete record, or none, lies behind the acknowledged ones. */
  predicate AtMostOneMore(acknowledged: seq<Record>, complete: seq<Record>) {
    acknowledged <= complete && |complete| <= |acknowledged| + 1
  }

  /**
   Crash refinement.  After any run from an empty journal, whatever failed on the way, the disk is the
   acknowledged records followed by at most one unacknowledged record, whole or torn.  Reopening it
   succeeds exactly when the distinct shares fit the reader's limit.  It then yields those complete
   records, and the seen jobs and pending winners are the ones that the live writer of these records held.
   */
  lemma {:induction false} CrashRefinement(env: Env, ops: seq<Op>)
    requires Faithful(env.codec) && SoundRun(env, EMPTY_JOURNAL, ops)
    ensures var j := Run(env, EMPTY_JOURNAL, ops);
            var complete := Complete(env.codec, j);
            && AtMostOneMore(j.log, complete)
            && Disk(env.codec, j) == Durably(env.codec, complete) + TornTail(env.codec, j)
            && NEWLINE !in TornTail(env.codec, j)
            && (TornTail(env.codec, j) != [] ==> j.poisoned && complete == j.log)
            && Accepts(env.check, complete)
            && OpenDisk(env, Released(env.check), Disk(env.codec, j))
               == (if DistinctShares(env.check, complete) <= MAX_ACCOUNTING_SHARES then Ok(complete) else Err)
            && (DistinctShares(env.check, complete) <= MAX_ACCOUNTING_SHARES ==>
                ReplayAll(Released(env.check), complete) == Ok(Memory(env.check, complete)))
  {
    var j := Run(env, EMPTY_JOURNAL, ops);
    EmptyIsLive(env);
    RunKeepsLive(env, EMPTY_JOURNAL, ops);
    DiskIs(env.codec, j);
    TornTailHasNoNewline(env.codec, j);
    ReopenRebuilds(env, j);
  }

  /* ----- job identifiers ----- */

  type Known = seq<Record> -> set<seq<byte>>
  type JobParser = string -> Option<seq<byte>>

  /** The jobs known after `rs` extend those known before its last record, which uses them as it should. */
  predicate JobStep(known: Known, parse: JobParser, rs: seq<Record>)
    requires rs != []
  {
    var before, r := known(rs[..|rs| - 1]), rs[|rs| - 1];
    && before <= known(rs)
    && (UsesJob(r) ==> parse(r.jobId).Some? && parse(r.jobId).value in known(rs))
    && (r.tag.JobActivated? ==> parse(r.jobId).Some? && parse(r.jobId).value !in before)
  }

  predicate JobSteps(known: Known, parse: JobParser, rs: seq<Record>) {
    rs != [] ==> JobSteps(known, parse, rs[..|rs| - 1]) && JobStep(known, parse, rs)
  }

  lemma {:induction false} JobsStayKnown(known: Known, parse: JobParser, rs: seq<Record>, i: nat)
    requires JobSteps(known, parse, rs) && i < |rs| && UsesJob(rs[i])
    ensures parse(rs[i].jobId).Some? && parse(rs[i].jobId).value in known(rs)
  {
    var n := |rs| - 1;
    if i < n { JobsStayKnown(known, parse, rs[..n], i); }
  }

  lemma {:induction false} FreshJob(known: Known, parse: JobParser, rs: seq<Record>, i: nat, k: nat)
    requires JobSteps(known, parse, rs) && i < k < |rs| && UsesJob(rs[i]) && rs[k].tag.JobActivated?
    ensures rs[i].jobId != rs[k].jobId
  {
    var n := |rs| - 1;
    if k < n { FreshJob(known, parse, rs[..n], i, k); } else { JobsStayKnown(known, parse, rs[..n], i); }
  }

  function KnownJobs(ctx: Context): Known {
    (rs: seq<Record>) => match AccountAll(ctx, rs) case Ok(l) => l.usedJobs case Err => {}
  }

  lemma {:induction false} AccountingJobSteps(ctx: Context, rs: seq<Record>)
    requires AccountAll(ctx, rs).Ok?
    ensures JobSteps(KnownJobs(ctx), ValidateCanonical32, rs)
  {
    if rs == [] {
    } else {
      var n := |rs| - 1;
      AccountingJobSteps(ctx, rs[..n]);
      UsedJobsStep(ctx, AccountAll(ctx, rs[..n]).value, rs[n]);
    }
  }

  /** In an accepted journal an activation never reuses the identifier of an earlier activation or share. */
  lemma {:induction false} ActivationIsFresh(ctx: Context, rs: seq<Record>, i: nat, k: nat)
    requires AccountAll(ctx, rs).Ok? && i < k < |rs| && UsesJob(rs[i]) && rs[k].tag.JobActivated?
    ensures rs[i].jobId != rs[k].jobId
  {
    AccountingJobSteps(ctx, rs);
    FreshJob(KnownJobs(ctx), ValidateCanonical32, rs, i, k);
  }

  /** A copy of an activation is refused, so only shares may be copied. */
  lemma {:induction false} ActivationCopyRefused(ctx: Context, rs: seq<Record>, i: nat)
    requires AccountAll(ctx, rs).Ok? && i < |rs| && rs[i].tag.JobActivated?
    ensures AccountAll(ctx, rs + [rs[i]]).Err?
  {
    var copied := rs + [rs[i]];
    if AccountAll(ctx, copied).Ok? {
      ActivationIsFresh(ctx, copied, i, |rs|);
    }
  }

  /** No job identifier is activated twice in a run, across any number of restarts. */
  lemma {:induction false} NoJobActivatedTwice(env: Env, ops: seq<Op>, i: nat, k: nat)
    requires Faithful(env.codec) && SoundRun(env, EMPTY_JOURNAL, ops)
    requires i < k < |Run(env, EMPTY_JOURNAL, ops).log|
    requires UsesJob(Run(env, EMPTY_JOURNAL, ops).log[i]) && Run(env, EMPTY_JOURNAL, ops).log[k].tag.JobActivated?
    ensures Run(env, EMPTY_JOURNAL, ops).log[i].jobId != Run(env, EMPTY_JOURNAL, ops).log[k].jobId
  {
    EmptyIsLive(env);
    RunKeepsLive(env, EMPTY_JOURNAL, ops);
    ActivationIsFresh(FreeContext(env.check, Run(env, EMPTY_JOURNAL, ops).log), Run(env, EMPTY_JOURNAL, ops).log, i, k);
  }

  /** In every reachable state no pending winner is both observed and quarantined, and quarantine is Wcash-only. */
  lemma {:induction false} NeverObservedAndConflicting(env: Env, ops: seq<Op>, key: WinnerKey)
    requires Faithful(env.codec) && SoundRun(env, EMPTY_JOURNAL, ops)
    requires key in Memory(env.check, Run(env, EMPTY_JOURNAL, ops).log).pending
    ensures var p := Memory(env.check, Run(env, EMPTY_JOURNAL, ops).log).pending[key];
            !(p.observedOnBestChain && p.conflictingWitness) && (p.conflictingWitness ==> key.chain == Wcash)
  {
    var log := Run(env, EMPTY_JOURNAL, ops).log;
    EmptyIsLive(env);
    RunKeepsLive(env, EMPTY_JOURNAL, ops);
    MemoryAgrees(env.check, log);
    assert key in LedgerOf(env.check, log).pending;
    assert GoodStatus(LedgerOf(env.check, log).pending[key]);
  }

  /** A record that a run wants to append is accepted by both interpreters exactly when its caller is sound. */
  lemma {:induction false} WriterReaderCompatible(env: Env, ops: seq<Op>, op: Op)
    requires Faithful(env.codec) && SoundRun(env, EMPTY_JOURNAL, ops) && !op.Reopen?
    requires Decide(env, Run(env, EMPTY_JOURNAL, ops), op).Write?
    ensures var j := Run(env, EMPTY_JOURNAL, ops);
            Accepts(env.check, j.log + [Decide(env, j, op).record]) <==> Sound(env.check, j.active, op)
  {
    EmptyIsLive(env);
    RunKeepsLive(env, EMPTY_JOURNAL, ops);
    WrittenIsAccepted(env, Run(env, EMPTY_JOURNAL, ops), op);
  }
}
