/** How each live operation must update the maps in memory so that they stay what the log denotes. */
module LiveMemory {
  import opened Common
  import opened Hex
  import opened JournalRecord
  import opened Accounting
  import opened Replay
  import opened Agreement
  import opened JournalModel
  import opened WriterCompat
  import opened LiveJournal
  import opened CrashRecovery

  lemma {:induction false} MemoryStep(check: BlockCheck, log: seq<Record>, r: Record)
    requires Accepts(check, log) && Accepts(check, log + [r])
    ensures ReplayRecord(FreeContext(check, log + [r]), Memory(check, log), r) == Ok(Memory(check, log + [r]))
  {
    OneMore(check, log, r);
  }

  lemma {:induction false} MemoryAfterActivation(check: BlockCheck, log: seq<Record>, job: ActiveJob, now: u64)
    requires Accepts(check, log) && Accepts(check, log + [ActivationRecord(job, now)])
    ensures ParseCanonicalId(job.jobId).Some?
    ensures var m := Memory(check, log + [ActivationRecord(job, now)]);
            && m.seenJobIds == Memory(check, log).seenJobIds + {ParseCanonicalId(job.jobId).value}
            && m.pending == Memory(check, log).pending
  {
    MemoryStep(check, log, ActivationRecord(job, now));
  }

  /* ----- status marks ----- */

  /** The pending map after a status mark took effect. */
  function Marked(pending: map<WinnerKey, PendingWinner>, key: WinnerKey, status: Status): map<WinnerKey, PendingWinner>
    requires key in pending
  {
    match status
    case Observed => pending[key := pending[key].(observedOnBestChain := true, conflictingWitness := false)]
    case Orphaned => pending[key := pending[key].(observedOnBestChain := false, conflictingWitness := false)]
    case Conflicting => pending[key := pending[key].(observedOnBestChain := false, conflictingWitness := true)]
    case Matured => pending - {key}
  }

  lemma {:induction false} ReplayMarks(
    pending: map<WinnerKey, PendingWinner>, winner: PendingWinner, status: Status, now: u64)
    requires winner.key in pending && ReplayStatus(pending, StatusRecord(winner, status, now)).Ok?
    ensures ReplayStatus(pending, StatusRecord(winner, status, now)).value == Marked(pending, winner.key, status)
  {
    ChainRoundTrip(winner.key.chain);
  }

  lemma {:induction false} MemoryAfterMark(
    check: BlockCheck, log: seq<Record>, winner: PendingWinner, status: Status, now: u64)
    requires Accepts(check, log) && Accepts(check, log + [StatusRecord(winner, status, now)])
    requires winner.key in Memory(check, log).pending
    ensures var m := Memory(check, log + [StatusRecord(winner, status, now)]);
            && m.seenJobIds == Memory(check, log).seenJobIds
            && m.pending == Marked(Memory(check, log).pending, winner.key, status)
  {
    MemoryStep(check, log, StatusRecord(winner, status, now));
    ReplayMarks(Memory(check, log).pending, winner, status, now);
  }

  /* ----- shares ----- */

  function WcashWinner(job: ActiveJob, id: Digest, block: seq<byte>): PendingWinner {
    PendingWinner(WinnerKey(id, Wcash), job.jobId, job.childHashDisplay, job.childHeight, block, false, false)
  }

  function ZcashWinner(job: ActiveJob, id: Digest, parent: Hash32, block: seq<byte>): PendingWinner {
    PendingWinner(WinnerKey(id, Zcash), job.jobId, DisplayHash(parent), job.parentHeight, block, false, false)
  }

  /** The pending map after a share of the active job was appended. */
  function WithWinners(
    pending: map<WinnerKey, PendingWinner>, job: ActiveJob, share: NativeShare): map<WinnerKey, PendingWinner>
    requires share.wcashBlock.Some? ==> share.wcashBlock.value.Ok?
  {
    var id := ShareIdOf(job.jobId, share.parentHash);
    var p := if share.wcashBlock.None? then pending
             else pending[WinnerKey(id, Wcash) := WcashWinner(job, id, share.wcashBlock.value.value)];
    if share.zcashBlock.None? then p
    else p[WinnerKey(id, Zcash) := ZcashWinner(job, id, share.parentHash, share.zcashBlock.value)]
  }

  /** The winners of a share, Wcash first. */
  function ShareWinners(job: ActiveJob, id: Digest, share: NativeShare): seq<PendingWinner>
    requires share.wcashBlock.Some? ==> share.wcashBlock.value.Ok?
  {
    (if share.wcashBlock.None? then [] else [WcashWinner(job, id, share.wcashBlock.value.value)])
    + (if share.zcashBlock.None? then [] else [ZcashWinner(job, id, share.parentHash, share.zcashBlock.value)])
  }

  lemma {:induction false} BlockHexRoundTrip(block: seq<byte>)
    requires DecodeBoundedHex(Some(HexEncode(block))).Ok?
    ensures DecodeBoundedHex(Some(HexEncode(block))) == Ok(block)
  {
    DecodeEncode(block);
  }

  lemma {:induction false} PersistedWritten(
    check: BlockCheck, job: ActiveJob, worker: string, auth: Authentication, share: NativeShare, now: u64, id: Digest)
    requires share.wcashBlock.Some? ==> share.wcashBlock.value.Ok?
    requires PersistedWinners(check, ShareRecord(job, worker, auth, share, now), id).Ok?
    ensures PersistedWinners(check, ShareRecord(job, worker, auth, share, now), id) == Ok(ShareWinners(job, id, share))
  {
    EncodedIsCanonical(share.parentHash);
    if share.wcashBlock.Some? { BlockHexRoundTrip(share.wcashBlock.value.value); }
    if share.zcashBlock.Some? { BlockHexRoundTrip(share.zcashBlock.value); }
  }

  lemma {:induction false} InsertShareWinners(
    pending: map<WinnerKey, PendingWinner>, job: ActiveJob, share: NativeShare)
    requires share.wcashBlock.Some? ==> share.wcashBlock.value.Ok?
    requires forall k :: k in pending ==> k.shareId != ShareIdOf(job.jobId, share.parentHash)
    requires InsertPending(pending, ShareWinners(job, ShareIdOf(job.jobId, share.parentHash), share)).Ok?
    ensures InsertPending(pending, ShareWinners(job, ShareIdOf(job.jobId, share.parentHash), share)).value
         == WithWinners(pending, job, share)
  {
    InsertTwo(pending, ShareWinners(job, ShareIdOf(job.jobId, share.parentHash), share));
  }

  /** Inserting at most two new winners with different keys. */
  lemma {:induction false} InsertTwo(pending: map<WinnerKey, PendingWinner>, ws: seq<PendingWinner>)
    requires |ws| <= 2 && InsertPending(pending, ws).Ok?
    requires forall i :: 0 <= i < |ws| ==> ws[i].key !in pending
    requires |ws| == 2 ==> ws[0].key != ws[1].key
    ensures |ws| == 0 ==> InsertPending(pending, ws).value == pending
    ensures |ws| == 1 ==> InsertPending(pending, ws).value == pending[ws[0].key := ws[0]]
    ensures |ws| == 2 ==> InsertPending(pending, ws).value == pending[ws[0].key := ws[0]][ws[1].key := ws[1]]
  {
    if |ws| == 2 {
      assert ws[1..] == [ws[1]] && ws[1..][1..] == [];
      var p := pending[ws[0].key := ws[0]];
      assert InsertPending(p, [ws[1]]) == InsertPending(p[ws[1].key := ws[1]], []);
    } else if |ws| == 1 {
      assert ws[1..] == [];
    }
  }

  lemma {:induction false} NoIdentityYet(check: BlockCheck, log: seq<Record>, id: Digest)
    requires Accepts(check, log) && id !in LedgerOf(check, log).accepted
    ensures id !in Memory(check, log).identities
    ensures forall k :: k in Memory(check, log).pending ==> k.shareId != id
  {
    ReplayFollows(FreeContext(check, log), log);
    LedgerRemembers(FreeContext(check, log), log);
  }

  /** The replay of a new share of a known job. */
  lemma {:induction false} ReplayNewShare(
    ctx: Context, m: ReplayState, job: ActiveJob, worker: string, auth: Authentication, share: NativeShare, now: u64)
    requires share.wcashBlock.Some? ==> share.wcashBlock.value.Ok?
    requires ReplayRecord(ctx, m, ShareRecord(job, worker, auth, share, now)).Ok?
    requires ParseCanonicalId(job.jobId).Some? && ParseCanonicalId(job.jobId).value in m.seenJobIds
    requires ShareIdOf(job.jobId, share.parentHash) !in m.identities
    requires forall k :: k in m.pending ==> k.shareId != ShareIdOf(job.jobId, share.parentHash)
    ensures var m' := ReplayRecord(ctx, m, ShareRecord(job, worker, auth, share, now)).value;
            m'.seenJobIds == m.seenJobIds && m'.pending == WithWinners(m.pending, job, share)
  {
    var r, id := ShareRecord(job, worker, auth, share, now), ShareIdOf(job.jobId, share.parentHash);
    var jobId := ParseCanonicalId(job.jobId).value;
    assert m.seenJobIds + {jobId} == m.seenJobIds;
    if r.tag.WinnerOutbox? {
      assert ReplayRecord(ctx, m, r) == ReplayOutbox(ctx, m, jobId, r);
      NewOutboxReplayed(ctx, m, jobId, r, id);
      PersistedWritten(ctx.check, job, worker, auth, share, now, id);
      InsertShareWinners(m.pending, job, share);
    }
  }

  lemma {:induction false} NewOutboxReplayed(ctx: Context, m: ReplayState, jobId: seq<byte>, r: Record, id: Digest)
    requires ReplayOutbox(ctx, m, jobId, r).Ok? && jobId in m.seenJobIds
    requires r.shareId == Some(Canonical(id)) && id !in m.identities
    ensures PersistedWinners(ctx.check, r, id).Ok?
    ensures InsertPending(m.pending, PersistedWinners(ctx.check, r, id).value).Ok?
    ensures var m' := ReplayOutbox(ctx, m, jobId, r).value;
            && m'.seenJobIds == m.seenJobIds
            && m'.pending == InsertPending(m.pending, PersistedWinners(ctx.check, r, id).value).value
  {
    assert m.seenJobIds + {jobId} == m.seenJobIds;
  }

  lemma {:induction false} MemoryAfterShare(
    check: BlockCheck, log: seq<Record>, job: ActiveJob, worker: string, auth: Authentication, share: NativeShare,
    now: u64)
    requires share.wcashBlock.Some? ==> share.wcashBlock.value.Ok?
    requires Accepts(check, log) && Accepts(check, log + [ShareRecord(job, worker, auth, share, now)])
    requires ActiveIn(check, log, Some(job))
    requires ShareIdOf(job.jobId, share.parentHash) !in LedgerOf(check, log).accepted
    ensures var m := Memory(check, log + [ShareRecord(job, worker, auth, share, now)]);
            && m.seenJobIds == Memory(check, log).seenJobIds
            && m.pending == WithWinners(Memory(check, log).pending, job, share)
  {
    MemoryStep(check, log, ShareRecord(job, worker, auth, share, now));
    MemoryAgrees(check, log);
    CanonicalParsersAgree(job.jobId);
    NoIdentityYet(check, log, ShareIdOf(job.jobId, share.parentHash));
    ReplayNewShare(FreeContext(check, log + [ShareRecord(job, worker, auth, share, now)]),
                   Memory(check, log), job, worker, auth, share, now);
  }

  /* ----- retained identities ----- */

  lemma {:induction false} RetainedAfter(log: seq<Record>, r: Record, job: ActiveJob, tag: Tag)
    ensures Retained(log + [r], Some(job), tag) ==
            if r.tag == tag && r.jobId == job.jobId && r.shareId.Some? && r.shareId.value.Canonical?
               && ParseAuthentication(r.workerAuthentication).Some?
            then Retained(log, Some(job), tag)
                 [r.shareId.value.digest := IdentityOf(r, ParseAuthentication(r.workerAuthentication).value)]
            else Retained(log, Some(job), tag)
  {
    assert (log + [r])[..|log|] == log;
  }

  lemma {:induction false} RetainedNothing(log: seq<Record>, job: ActiveJob, tag: Tag)
    requires forall i :: 0 <= i < |log| && log[i].tag == tag ==> log[i].jobId != job.jobId
    ensures Retained(log, Some(job), tag) == map[]
  {
    if log == [] {
    } else {
      RetainedNothing(log[..|log| - 1], job, tag);
    }
  }

  /** Nothing is retained for a job that was never used. */
  lemma {:induction false} NewJobRetainsNothing(check: BlockCheck, log: seq<Record>, job: ActiveJob, tag: Tag)
    requires Accepts(check, log) && IsShare(tag)
    requires ParseCanonicalId(job.jobId).Some? && ParseCanonicalId(job.jobId).value !in Memory(check, log).seenJobIds
    ensures Retained(log, Some(job), tag) == map[]
  {
    var ctx := FreeContext(check, log);
    MemoryAgrees(check, log);
    CanonicalParsersAgree(job.jobId);
    AccountingJobSteps(ctx, log);
    forall i | 0 <= i < |log| && log[i].tag == tag ensures log[i].jobId != job.jobId {
      JobsStayKnown(KnownJobs(ctx), ValidateCanonical32, log, i);
    }
    RetainedNothing(log, job, tag);
  }

  lemma {:induction false} AuthenticationRoundTrip(auth: Authentication)
    ensures ParseAuthentication(Some(AuthenticationName(auth))) == if auth == LegacyUnknown then None else Some(auth)
  {
    assert |AuthenticationName(LegacyUnknown)| == 14;
  }
}
