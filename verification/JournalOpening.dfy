/**
 Exactly when a journal opens again.  The live writer appends an activation or a mark at time zero and a
 winner whose block does not validate, and no later opening accepts a log that holds such a record.
 */
module JournalOpening {
  import opened Common
  import opened Framing
  import opened Hex
  import opened JournalRecord
  import opened Accounting
  import opened Replay
  import opened JournalModel
  import opened WriterCompat
  import opened LiveJournal
  import opened CrashRecovery

  /* ----- what the released reader accepts ----- */

  predicate OpensLog(check: BlockCheck, log: seq<Record>) {
    AccountAll(Released(check), log).Ok? && ReplayAll(Released(check), log).Ok?
  }

  lemma {:induction false} AcceptsWithin(check: BlockCheck, log: seq<Record>, ctx: Context)
    requires ctx.check == check && ctx.maxShares <= ctx.maxWinnerShares
    requires AccountAll(ctx, log).Ok? && ReplayAll(ctx, log).Ok?
    ensures Accepts(check, log) && DistinctShares(check, log) <= ctx.maxShares
  {
    LedgerSize(ctx, log);
    IdentitySize(ctx, log);
    LimitIrrelevant(ctx, FreeContext(check, log), log);
    ReplayLimitIrrelevant(ctx, FreeContext(check, log), log);
    LedgerWithinLimit(ctx, log);
  }

  /** The released reader opens a log exactly when both interpreters accept it and its distinct shares fit. */
  lemma {:induction false} OpensIffAccepted(check: BlockCheck, log: seq<Record>)
    ensures OpensLog(check, log) <==> Accepts(check, log) && DistinctShares(check, log) <= MAX_ACCOUNTING_SHARES
  {
    if OpensLog(check, log) { AcceptsWithin(check, log, Released(check)); }
    if Accepts(check, log) { ReleasedAccepts(check, log); }
  }

  lemma {:induction false} AcceptedBefore(check: BlockCheck, log: seq<Record>)
    requires log != [] && Accepts(check, log)
    ensures Accepts(check, log[..|log| - 1])
  {
    AcceptsWithin(check, log[..|log| - 1], FreeContext(check, log));
  }

  /** A rejected log stays rejected, whatever is appended to it. */
  lemma {:induction false} RejectedForever(check: BlockCheck, log: seq<Record>, longer: seq<Record>)
    requires log <= longer && Accepts(check, longer)
    ensures Accepts(check, log)
  {
    if log == longer {
    } else {
      AcceptedBefore(check, longer);
      RejectedForever(check, log, longer[..|longer| - 1]);
    }
  }

  /** Opening the disk reads no more than its complete records. */
  lemma {:induction false} OpensComplete(env: Env, j: Journal)
    requires Faithful(env.codec) && OpenDisk(env, Released(env.check), Disk(env.codec, j)).Ok?
    ensures OpensLog(env.check, Complete(env.codec, j))
  {
    DiskSplits(env.codec, j);
    DecodeEncoded(env.codec, Complete(env.codec, j));
  }

  /* ----- one operation ----- */

  /** Only a poisoned journal has an unacknowledged record behind its log. */
  predicate Stopped(j: Journal) { j.failed.Some? ==> j.poisoned }

  lemma {:induction false} AppendCompletes(codec: Codec, j: Journal, r: Record, io: Append)
    requires Stopped(j)
    ensures var after := AppendRecord(codec, j, r, io).0;
            && Stopped(after)
            && (Complete(codec, after) == Complete(codec, j)
                || (Complete(codec, j) == j.log && Complete(codec, after) == j.log + [r]))
  {
  }

  lemma {:induction false} PerformCompletes(codec: Codec, j: Journal, d: Decision, op: Op)
    requires Stopped(j) && !op.Reopen?
    ensures var after := Perform(codec, j, d, op).0;
            && Stopped(after) && Complete(codec, j) <= Complete(codec, after)
            && (Complete(codec, after) != Complete(codec, j) ==>
                d.Write? && Complete(codec, after) == j.log + [d.record])
  {
    if d.Write? { AppendCompletes(codec, j, d.record, op.io); }
  }

  /** An unsound record on the disk is one that no reader accepts. */
  lemma {:induction false} UnsoundIsRejected(env: Env, j: Journal, op: Op)
    requires Live(env, j) && !SoundStep(env, j, op)
    ensures !Accepts(env.check, Complete(env.codec, LiveStep(env, j, op)))
  {
    PerformCompletes(env.codec, j, Decide(env, j, op), op);
    WrittenIsAccepted(env, j, op);
  }

  /**
   The exact condition for one operation on a live journal.  The disk behind it opens if and only if whatever
   the operation wrote has a positive time, or valid winner blocks, and the distinct shares fit the limit.
   */
  lemma {:induction false} StepOpensIffSound(env: Env, j: Journal, op: Op)
    requires Live(env, j) && Faithful(env.codec) && !op.Reopen?
    ensures var after := LiveStep(env, j, op);
            && (Accepts(env.check, Complete(env.codec, after)) <==> SoundStep(env, j, op))
            && OpenDisk(env, Released(env.check), Disk(env.codec, after))
               == if SoundStep(env, j, op)
                     && DistinctShares(env.check, Complete(env.codec, after)) <= MAX_ACCOUNTING_SHARES
                  then Ok(Complete(env.codec, after)) else Err
  {
    var after := LiveStep(env, j, op);
    if SoundStep(env, j, op) {
      LiveStepKeepsLive(env, j, op);
      ReopenRebuilds(env, after);
    } else {
      UnsoundIsRejected(env, j, op);
      OpensIffAccepted(env.check, Complete(env.codec, after));
      if OpenDisk(env, Released(env.check), Disk(env.codec, after)).Ok? { OpensComplete(env, after); }
    }
  }

  /* ----- whole runs ----- */

  /** The complete records of a disk only grow. */
  lemma {:induction false} CompleteGrows(env: Env, j: Journal, op: Op)
    requires Faithful(env.codec) && Stopped(j)
    ensures Stopped(Step(env, j, op)) && Complete(env.codec, j) <= Complete(env.codec, Step(env, j, op))
  {
    if op.Reopen? {
      DiskSplits(env.codec, j);
      DecodeEncoded(env.codec, Complete(env.codec, j));
    } else {
      PerformCompletes(env.codec, j, Decide(env, j, op), op);
    }
  }

  lemma {:induction false} RunIsStopped(env: Env, ops: seq<Op>)
    requires Faithful(env.codec)
    ensures Stopped(Run(env, EMPTY_JOURNAL, ops))
  {
    if ops == [] {
    } else {
      var n := |ops| - 1;
      RunIsStopped(env, ops[..n]);
      CompleteGrows(env, Run(env, EMPTY_JOURNAL, ops[..n]), ops[n]);
    }
  }

  /** After an unsound write no state of the run is acceptable again; only the growth of the log matters. */
  lemma {:induction false} UnsoundRunIsRejected(env: Env, ops: seq<Op>)
    requires Faithful(env.codec) && !SoundRun(env, EMPTY_JOURNAL, ops)
    ensures !Accepts(env.check, Complete(env.codec, Run(env, EMPTY_JOURNAL, ops)))
  {
    var n := |ops| - 1;
    var before := Run(env, EMPTY_JOURNAL, ops[..n]);
    if SoundRun(env, EMPTY_JOURNAL, ops[..n]) {
      EmptyIsLive(env);
      RunKeepsLive(env, EMPTY_JOURNAL, ops[..n]);
      UnsoundIsRejected(env, before, ops[n]);
    } else {
      UnsoundRunIsRejected(env, ops[..n]);
      RunIsStopped(env, ops[..n]);
      CompleteGrows(env, before, ops[n]);
      var after := Complete(env.codec, Run(env, EMPTY_JOURNAL, ops));
      if Accepts(env.check, after) { RejectedForever(env.check, Complete(env.codec, before), after); }
    }
  }

  /**
   The exact condition over every run from an empty journal, with any failed or torn append and any restarts:
   the disk opens if and only if every write was sound and the distinct shares fit the reader's limit, and
   opening then gives back the complete records.
   */
  lemma {:induction false} RunOpensIffSound(env: Env, ops: seq<Op>)
    requires Faithful(env.codec)
    ensures var j := Run(env, EMPTY_JOURNAL, ops);
            && (Accepts(env.check, Complete(env.codec, j)) <==> SoundRun(env, EMPTY_JOURNAL, ops))
            && OpenDisk(env, Released(env.check), Disk(env.codec, j))
               == if SoundRun(env, EMPTY_JOURNAL, ops)
                     && DistinctShares(env.check, Complete(env.codec, j)) <= MAX_ACCOUNTING_SHARES
                  then Ok(Complete(env.codec, j)) else Err
  {
    var j := Run(env, EMPTY_JOURNAL, ops);
    if SoundRun(env, EMPTY_JOURNAL, ops) {
      EmptyIsLive(env);
      RunKeepsLive(env, EMPTY_JOURNAL, ops);
      ReopenRebuilds(env, j);
    } else {
      UnsoundRunIsRejected(env, ops);
      OpensIffAccepted(env.check, Complete(env.codec, j));
      if OpenDisk(env, Released(env.check), Disk(env.codec, j)).Ok? { OpensComplete(env, j); }
    }
  }

  /* ----- a reachable failure ----- */

  function JobNamed(id: Hash32): ActiveJob { ActiveJob(HexEncode(id), HexEncode(id), 1, 1) }

  /** The first activation, at time zero, is acknowledged, and the journal does not open after it. */
  lemma {:induction false} ActivationAtTimeZero(env: Env, id: Hash32)
    requires Faithful(env.codec)
    requires |Frame(env.codec, ActivationRecord(JobNamed(id), 0))| <= MAX_JOURNAL_RECORD_BYTES
    ensures var op := Activate(JobNamed(id), 0, Durable);
            && Acknowledged(env, EMPTY_JOURNAL, op)
            && OpenDisk(env, Released(env.check), Disk(env.codec, LiveStep(env, EMPTY_JOURNAL, op))).Err?
  {
    var op := Activate(JobNamed(id), 0, Durable);
    EncodedIsCanonical(id);
    CanonicalParsersAgree(HexEncode(id));
    EmptyIsLive(env);
    assert Decide(env, EMPTY_JOURNAL, op).Write?;
    StepOpensIffSound(env, EMPTY_JOURNAL, op);
  }
}
