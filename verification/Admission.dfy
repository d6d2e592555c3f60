/**
 What the live journal records, stated over its log alone: exactly which activations, shares and status marks
 are written, which are acknowledged without a record, and which are refused.
 */
module Admission {
  import opened Common
  import opened Hex
  import opened JournalRecord
  import opened Accounting
  import opened Replay
  import opened Agreement
  import opened RecordCounts
  import opened PendingRecords
  import opened JournalModel
  import opened WriterCompat
  import opened LiveJournal
  import opened CrashRecovery
  import opened LiveMemory

  /* ----- activations ----- */

  /** The jobs in memory are those that the log names. */
  lemma {:induction false} SeenAreJobs(check: BlockCheck, log: seq<Record>)
    requires Accepts(check, log)
    ensures Memory(check, log).seenJobIds == JobsOf(log)
    ensures forall r :: r in log && UsesJob(r) ==> ValidateCanonical32(r.jobId).Some?
  {
    var ctx := FreeContext(check, log);
    MemoryAgrees(check, log);
    UsedJobsSpeakForRecords(ctx, log);
    AccountingJobSteps(ctx, log);
    forall r | r in log && UsesJob(r) ensures ValidateCanonical32(r.jobId).Some? {
      var i :| 0 <= i < |log| && log[i] == r;
      JobsStayKnown(KnownJobs(ctx), ValidateCanonical32, log, i);
    }
  }

  /** A job with canonical identifiers and positive heights, of which the log has no record yet, in a log with room. */
  ghost predicate Activatable(log: seq<Record>, job: ActiveJob) {
    && ValidateCanonical32(job.jobId).Some? && ValidateCanonical32(job.childHashDisplay).Some?
    && job.childHeight > 0 && job.parentHeight > 0
    && !NamedIn(log, job.jobId) && |JobsOf(log)| < 1_000_000
  }

  lemma {:induction false} ActivationWrittenIff(env: Env, j: Journal, job: ActiveJob, now: u64, io: Append)
    requires Live(env, j)
    ensures Decide(env, j, Activate(job, now, io))
         == if Activatable(j.log, job) then Write(ActivationRecord(job, now)) else Refuse
  {
    SeenAreJobs(env.check, j.log);
    CanonicalParsersAgree(job.jobId);
    CanonicalParsersAgree(job.childHashDisplay);
    if ValidateCanonical32(job.jobId).Some? { NamedIsJob(j.log, job.jobId); }
  }

  /* ----- shares ----- */

  /** The log holds a share of this job with this identifier. */
  predicate SharedIn(log: seq<Record>, jobId: string, id: Digest) {
    exists r :: r in log && IsShare(r.tag) && r.jobId == jobId && r.shareId == Some(Canonical(id))
  }

  /** The distinct shares of a job that won nothing. */
  function PlainIds(log: seq<Record>, jobId: string): set<Digest> {
    set r | r in log && r.tag.AcceptedShare? && r.jobId == jobId && HasId(r) :: r.shareId.value.digest
  }

  predicate Readable(log: seq<Record>) {
    forall r :: r in log && IsShare(r.tag) ==> HasId(r) && ParseAuthentication(r.workerAuthentication).Some?
  }

  lemma {:induction false} AcceptedIsReadable(check: BlockCheck, log: seq<Record>)
    requires Accepts(check, log)
    ensures Readable(log)
  {
    var ctx := FreeContext(check, log);
    LedgerRemembers(ctx, log);
    RecordsOfAll(log);
    forall r | r in log && IsShare(r.tag) ensures HasId(r) && ParseAuthentication(r.workerAuthentication).Some? {
      OriginFacts(ctx, r, CheckedShare(ctx, r).value.id);
    }
  }

  predicate RetainedFrom(log: seq<Record>, job: ActiveJob, tag: Tag, id: Digest, r: Record) {
    r in log && r.tag == tag && r.jobId == job.jobId && r.shareId == Some(Canonical(id))
  }

  /** What is retained for a share is exactly what a record of the log says. */
  lemma {:induction false} RetainedIs(log: seq<Record>, job: ActiveJob, tag: Tag, id: Digest) returns (r: Record)
    requires Readable(log) && IsShare(tag)
    ensures var m := Retained(log, Some(job), tag);
            if id in m then
              && RetainedFrom(log, job, tag, id, r) && ParseAuthentication(r.workerAuthentication).Some?
              && m[id] == IdentityOf(r, ParseAuthentication(r.workerAuthentication).value)
            else forall x :: !RetainedFrom(log, job, tag, id, x)
  {
    r := BLANK;
    if log == [] {
    } else {
      var n := |log| - 1;
      var before, last := log[..n], log[n];
      assert log == before + [last];
      r := RetainedIs(before, job, tag, id);
      RetainedAfter(before, last, job, tag);
      if RetainedFrom([last], job, tag, id, last) {
        assert HasId(last);
        r := last;
      } else {
        forall x ensures RetainedFrom(log, job, tag, id, x) <==> RetainedFrom(before, job, tag, id, x) {
          if RetainedFrom(log, job, tag, id, x) { assert x in before || x == last; }
        }
      }
    }
  }

  /** The share of the active job that the log already holds under this identifier, as a retry finds it. */
  lemma {:induction false} KnownIs(check: BlockCheck, log: seq<Record>, job: ActiveJob, id: Digest) returns (r: Record)
    requires Accepts(check, log)
    ensures var plain, winning := Retained(log, Some(job), AcceptedShare), Retained(log, Some(job), WinnerOutbox);
            var known := KnownIdentity(plain, winning, id);
            && (known.Some? <==> SharedIn(log, job.jobId, id))
            && (known.Some? ==>
                && r in log && IsShare(r.tag) && r.jobId == job.jobId && r.shareId == Some(Canonical(id))
                && ParseAuthentication(r.workerAuthentication).Some?
                && known.value == IdentityOf(r, ParseAuthentication(r.workerAuthentication).value))
  {
    AcceptedIsReadable(check, log);
    var plain := RetainedIs(log, job, AcceptedShare, id);
    var winning := RetainedIs(log, job, WinnerOutbox, id);
    r := if id in Retained(log, Some(job), AcceptedShare) then plain else winning;
    if SharedIn(log, job.jobId, id) {
      var x :| x in log && IsShare(x.tag) && x.jobId == job.jobId && x.shareId == Some(Canonical(id));
      assert RetainedFrom(log, job, x.tag, id, x);
    }
  }

  lemma {:induction false} PlainAreRetained(check: BlockCheck, log: seq<Record>, job: ActiveJob)
    requires Accepts(check, log)
    ensures |Retained(log, Some(job), AcceptedShare)| == |PlainIds(log, job.jobId)|
  {
    AcceptedIsReadable(check, log);
    var m := Retained(log, Some(job), AcceptedShare);
    forall id ensures id in m.Keys <==> id in PlainIds(log, job.jobId) {
      var r := RetainedIs(log, job, AcceptedShare, id);
      if id in PlainIds(log, job.jobId) {
        var x :| x in log && x.tag.AcceptedShare? && x.jobId == job.jobId && HasId(x) && x.shareId.value.digest == id;
        assert RetainedFrom(log, job, AcceptedShare, id, x);
      }
    }
    assert m.Keys == PlainIds(log, job.jobId);
  }

  /** What any share must bring: a name, the current job, a completed block, a time and a known provenance. */
  predicate WellFormed(j: Journal, worker: string, auth: Authentication, jobId: string, share: NativeShare, now: u64) {
    && ValidWorkerName(worker) && j.active.Some? && j.active.value.jobId == jobId
    && (share.wcashBlock.Some? ==> share.wcashBlock.value.Ok?)
    && now > 0 && auth != LegacyUnknown
  }

  /** There is room for one more: a plain share of the job, or the pending winners of a winning one. */
  predicate HasRoom(check: BlockCheck, log: seq<Record>, jobId: string, share: NativeShare) {
    if WinnerCount(share) == 0 then |PlainIds(log, jobId)| < 100_000
    else |Memory(check, log).pending| + WinnerCount(share) <= 4096
  }

  /** A new share finds room exactly when the writer's own counters say so. */
  lemma {:induction false} RoomIs(check: BlockCheck, log: seq<Record>, job: ActiveJob, share: NativeShare)
    requires Accepts(check, log) && ValidateCanonical32(job.jobId).Some?
    requires !SharedIn(log, job.jobId, ShareIdOf(job.jobId, share.parentHash))
    ensures |Retained(log, Some(job), AcceptedShare)| == |PlainIds(log, job.jobId)|
    ensures AdditionalWinners(Memory(check, log).pending, ShareIdOf(job.jobId, share.parentHash), share)
         == WinnerCount(share)
  {
    PlainAreRetained(check, log, job);
    var r := KnownIs(check, log, job, ShareIdOf(job.jobId, share.parentHash));
    NewShareIsFresh(check, log, job, share.parentHash);
    MemoryAgrees(check, log);
    PendingWereAccepted(check, log);
    AdditionalCount(LedgerOf(check, log), Memory(check, log), ShareIdOf(job.jobId, share.parentHash), share);
  }

  /** The decision on a share whose identifier is not retained. */
  lemma {:induction false} NewShareDecision(
    job: ActiveJob, plain: map<Digest, Identity>, winning: map<Digest, Identity>,
    pending: map<WinnerKey, PendingWinner>, worker: string, auth: Authentication, share: NativeShare, now: u64)
    requires ValidWorkerName(worker) && (share.wcashBlock.Some? ==> share.wcashBlock.value.Ok?)
    requires now > 0 && auth != LegacyUnknown
    requires KnownIdentity(plain, winning, ShareIdOf(job.jobId, share.parentHash)).None?
    requires AdditionalWinners(pending, ShareIdOf(job.jobId, share.parentHash), share) == WinnerCount(share)
    ensures DecideShare(Some(job), plain, winning, pending, worker, auth, job.jobId, share, now)
         == if (if WinnerCount(share) == 0 then |plain| < 100_000 else |pending| + WinnerCount(share) <= 4096)
            then Write(ShareRecord(job, worker, auth, share, now)) else Refuse
  {
    AuthenticationRoundTrip(auth);
  }

  lemma {:induction false} MalformedDecision(env: Env, j: Journal, op: Op)
    requires op.Share? && !WellFormed(j, op.worker, op.auth, op.jobId, op.share, op.now)
    ensures Decide(env, j, op) == Refuse
  {
    AuthenticationRoundTrip(op.auth);
  }

  /**
   Exactly which shares are written: well-formed ones of the active job whose identifier is in no record of the
   log for that job, while there is room.
   */
  lemma {:induction false} ShareWrittenIff(env: Env, j: Journal, op: Op)
    requires Live(env, j) && op.Share?
    ensures Decide(env, j, op).Write? <==>
            && WellFormed(j, op.worker, op.auth, op.jobId, op.share, op.now)
            && !SharedIn(j.log, op.jobId, ShareIdOf(op.jobId, op.share.parentHash))
            && HasRoom(env.check, j.log, op.jobId, op.share)
    ensures Decide(env, j, op).Write? ==>
              Decide(env, j, op).record == ShareRecord(j.active.value, op.worker, op.auth, op.share, op.now)
  {
    if !WellFormed(j, op.worker, op.auth, op.jobId, op.share, op.now) {
      MalformedDecision(env, j, op);
    } else {
      var job, id := j.active.value, ShareIdOf(op.jobId, op.share.parentHash);
      var r := KnownIs(env.check, j.log, job, id);
      if SharedIn(j.log, op.jobId, id) {
      } else {
        RoomIs(env.check, j.log, job, op.share);
        NewShareDecision(job, Retained(j.log, j.active, AcceptedShare), Retained(j.log, j.active, WinnerOutbox),
                         Memory(env.check, j.log).pending, op.worker, op.auth, op.share, op.now);
      }
    }
  }

  /* ----- retries ----- */

  /** Two records that differ at most in the time of acceptance. */
  predicate SameButTime(a: Record, b: Record) { a.(acceptedAt := None) == b.(acceptedAt := None) }

  /** The fields that the fingerprint does not cover are the same in every share record. */
  predicate ShareShape(r: Record) {
    && IsShare(r.tag) && r.version == JOURNAL_VERSION && r.recordedAt.None?
    && r.chain.None? && r.blockHash.None? && r.height.None? && r.wcashCandidate.Some? && r.zcashCandidate.Some?
  }

  lemma {:induction false} ShareTagsDiffer()
    ensures TagName(AcceptedShare) != TagName(WinnerOutbox)
  {
    assert |TagName(AcceptedShare)| == 14 && |TagName(WinnerOutbox)| == 13;
  }

  /** Share records with equal identifiers and fingerprints differ at most in the time. */
  lemma {:induction false} SameShareSameRecord(a: Record, b: Record)
    requires ShareShape(a) && ShareShape(b) && LineSized(a) && LineSized(b) && a.shareId == b.shareId
    requires ShareFingerprint(a) == ShareFingerprint(b)
    ensures SameButTime(a, b)
  {
    FingerprintBinds(a, b);
    ShareTagsDiffer();
    assert a.tag == b.tag;
    FlagIs(a.wcashCandidate);
    FlagIs(b.wcashCandidate);
    FlagIs(a.zcashCandidate);
    FlagIs(b.zcashCandidate);
  }

  lemma {:induction false} TimeIsNotHashed(a: Record, b: Record)
    requires SameButTime(a, b)
    ensures ShareFingerprint(a) == ShareFingerprint(b) && a.worker == b.worker
    ensures a.workerAuthentication == b.workerAuthentication
  {
    assert b == a.(acceptedAt := b.acceptedAt);
  }

  /** A share record of an accepted log has the common shape, and texts that a line can hold. */
  lemma {:induction false} LoggedShape(check: BlockCheck, log: seq<Record>, r: Record)
    requires Accepts(check, log) && r in log && IsShare(r.tag)
    ensures ShareShape(r)
  {
    var ctx := FreeContext(check, log);
    LedgerRemembers(ctx, log);
    RecordsOfAll(log);
    var id := CheckedShare(ctx, r).value.id;
    assert Behind(CheckerOf(ctx), LedgerOf(check, log), id, r);
  }

  lemma {:induction false} WrittenShape(
    job: ActiveJob, worker: string, auth: Authentication, share: NativeShare, now: u64)
    requires share.wcashBlock.Some? ==> share.wcashBlock.value.Ok?
    ensures var b := ShareRecord(job, worker, auth, share, now);
            && ShareShape(b) && b.shareId == Some(Canonical(ShareIdOf(job.jobId, share.parentHash)))
            && b.jobId == job.jobId && b.worker == Some(worker)
            && b.workerAuthentication == Some(AuthenticationName(auth))
  {
  }

  /** The decision on a share by what is retained under its identifier. */
  lemma {:induction false} KnownDecision(
    job: ActiveJob, plain: map<Digest, Identity>, winning: map<Digest, Identity>,
    pending: map<WinnerKey, PendingWinner>, worker: string, auth: Authentication, share: NativeShare, now: u64)
    requires ValidWorkerName(worker) && (share.wcashBlock.Some? ==> share.wcashBlock.value.Ok?)
    requires now > 0 && auth != LegacyUnknown
    ensures var known := KnownIdentity(plain, winning, ShareIdOf(job.jobId, share.parentHash));
            DecideShare(Some(job), plain, winning, pending, worker, auth, job.jobId, share, now).NoChange? <==>
            known.Some? && SameReplay(known.value, IdentityOf(ShareRecord(job, worker, auth, share, now), auth))
  {
    AuthenticationRoundTrip(auth);
  }

  /** An identity of a logged share equals that of a new record exactly when the records differ only in time. */
  lemma {:induction false} SameReplayIff(r: Record, b: Record, auth: Authentication)
    requires ShareShape(r) && ShareShape(b) && LineSized(r) && LineSized(b) && r.shareId == b.shareId
    requires b.workerAuthentication == Some(AuthenticationName(auth)) && auth != LegacyUnknown
    requires ParseAuthentication(r.workerAuthentication).Some?
    ensures SameReplay(IdentityOf(r, ParseAuthentication(r.workerAuthentication).value), IdentityOf(b, auth)) <==>
            SameButTime(r, b)
  {
    AuthenticationRoundTrip(auth);
    if SameReplay(IdentityOf(r, ParseAuthentication(r.workerAuthentication).value), IdentityOf(b, auth)) {
      SameShareSameRecord(r, b);
    }
    if SameButTime(r, b) { TimeIsNotHashed(r, b); }
  }

  /**
   Exactly which shares are acknowledged without a record: well-formed ones that are, apart from the time, a
   record of the log.  Texts are shorter than 2^64 bytes, as lengths are hashed in eight bytes.
   */
  lemma {:induction false} RetryAcknowledgedIff(env: Env, j: Journal, op: Op)
    requires Live(env, j) && op.Share? && WellFormed(j, op.worker, op.auth, op.jobId, op.share, op.now)
    requires LineSized(ShareRecord(j.active.value, op.worker, op.auth, op.share, op.now))
    requires forall r :: r in j.log ==> LineSized(r)
    ensures Decide(env, j, op).NoChange? <==>
            exists r :: r in j.log && SameButTime(r, ShareRecord(j.active.value, op.worker, op.auth, op.share, op.now))
  {
    var job, id := j.active.value, ShareIdOf(op.jobId, op.share.parentHash);
    var b := ShareRecord(job, op.worker, op.auth, op.share, op.now);
    WrittenShape(job, op.worker, op.auth, op.share, op.now);
    var known := KnownIs(env.check, j.log, job, id);
    KnownDecision(job, Retained(j.log, j.active, AcceptedShare), Retained(j.log, j.active, WinnerOutbox),
                  Memory(env.check, j.log).pending, op.worker, op.auth, op.share, op.now);
    if SharedIn(j.log, op.jobId, id) {
      LoggedShape(env.check, j.log, known);
      SameReplayIff(known, b, op.auth);
      forall r | r in j.log && SameButTime(r, b) ensures r == known {
        OneRecordPerShare(FreeContext(env.check, j.log), j.log, known, r);
      }
    }
  }

  /* ----- status marks ----- */

  /** The winner that a caller marks is the one that is pending under its key. */
  predicate SamePendingWinner(pending: map<WinnerKey, PendingWinner>, w: PendingWinner) {
    && w.key in pending
    && pending[w.key] == w.(key := pending[w.key].key, observedOnBestChain := pending[w.key].observedOnBestChain,
                            conflictingWitness := pending[w.key].conflictingWitness)
  }

  predicate IsNow(p: PendingWinner, observed: bool, conflicting: bool) {
    p.observedOnBestChain == observed && p.conflictingWitness == conflicting
  }

  /** The winner already is what the status says. */
  predicate AlreadyIs(p: PendingWinner, status: Status) {
    match status
    case Observed => IsNow(p, true, false)
    case Orphaned => IsNow(p, false, false)
    case Conflicting => IsNow(p, false, true)
    case Matured => false
  }

  /** Quarantine is for Wcash winners, and only an observed winner matures. */
  predicate MayBecome(p: PendingWinner, status: Status) {
    match status
    case Observed => true
    case Orphaned => true
    case Conflicting => p.key.chain == Wcash
    case Matured => IsNow(p, true, false)
  }

  lemma {:induction false} MarkDecision(
    pending: map<WinnerKey, PendingWinner>, w: PendingWinner, status: Status, now: u64)
    requires w.key in pending ==> pending[w.key].key == w.key
    requires w.key in pending ==> !(pending[w.key].observedOnBestChain && pending[w.key].conflictingWitness)
    ensures DecideStatus(pending, w, status, now) == Marking(pending, w, status, now)
  {
  }

  /** What a mark should do: an unknown winner needs none, and a known one only a mark that it may take. */
  function Marking(pending: map<WinnerKey, PendingWinner>, w: PendingWinner, status: Status, now: u64): Decision {
    if w.key !in pending then NoChange
    else if !SamePendingWinner(pending, w) || !MayBecome(pending[w.key], status) then Refuse
    else if AlreadyIs(pending[w.key], status) then NoChange
    else Write(StatusRecord(w, status, now))
  }

  /**
   Exactly which marks are written, acknowledged without a record, and refused.  An unknown winner needs no
   mark; a known one is marked if it is the same block and may become what the mark says.
   */
  lemma {:induction false} MarkWrittenIff(env: Env, j: Journal, op: Op)
    requires Live(env, j) && op.Mark?
    ensures Decide(env, j, op) == Marking(Memory(env.check, j.log).pending, op.winner, op.status, op.now)
  {
    PendingIsGood(env.check, j.log, op.winner.key);
    MarkDecision(Memory(env.check, j.log).pending, op.winner, op.status, op.now);
  }

  lemma {:induction false} PendingIsGood(check: BlockCheck, log: seq<Record>, k: WinnerKey)
    requires Accepts(check, log)
    ensures var pending := Memory(check, log).pending;
            k in pending ==> pending[k].key == k && !(pending[k].observedOnBestChain && pending[k].conflictingWitness)
  {
    MemoryAgrees(check, log);
    var l := LedgerOf(check, log);
    if k in l.pending {
      assert GoodStatus(l.pending[k]);
      assert SameWinner(k, l.pending[k], Memory(check, log).pending[k]);
    }
  }

  /* ----- the operations themselves ----- */

  /** The record fits a line, and the file has room for it. */
  predicate RecordFits(env: Env, j: Journal, r: Record) {
    && |Frame(env.codec, r)| <= 10_485_760
    && |Durably(env.codec, j.log)| + |Frame(env.codec, r)| <= 1_073_741_824
  }

  lemma {:induction false} PerformDurably(env: Env, j: Journal, r: Record, op: Op)
    requires !op.Reopen? && op.io.Durable? && !j.poisoned && RecordFits(env, j, r)
    ensures Perform(env.codec, j, Write(r), op)
         == (j.(log := j.log + [r], active := if op.Activate? then Some(op.job) else j.active), true)
  {
  }

  /** A decision to write is carried out by one durable append, which is acknowledged. */
  lemma {:induction false} WrittenDurably(env: Env, j: Journal, op: Op)
    requires !op.Reopen? && op.io.Durable? && !j.poisoned && Decide(env, j, op).Write?
    requires RecordFits(env, j, Decide(env, j, op).record)
    ensures Acknowledged(env, j, op)
    ensures LiveStep(env, j, op) == j.(log := j.log + [Decide(env, j, op).record],
                                       active := if op.Activate? then Some(op.job) else j.active)
  {
    PerformDurably(env, j, Decide(env, j, op).record, op);
  }

  lemma {:induction false} NotWritten(env: Env, j: Journal, op: Op)
    requires !op.Reopen? && !Decide(env, j, op).Write?
    ensures LiveStep(env, j, op) == j && (Acknowledged(env, j, op) <==> Decide(env, j, op).NoChange?)
  {
  }

  /**
   Recording a share, on a live journal that still writes, when the append is durable and the record fits: it is
   acknowledged and the log grows by its record if and only if the share is well formed, new and has room.
   */
  lemma {:induction false} ShareRecordedIff(env: Env, j: Journal, op: Op)
    requires Live(env, j) && !j.poisoned && op.Share? && op.io.Durable?
    requires WellFormed(j, op.worker, op.auth, op.jobId, op.share, op.now) ==>
               RecordFits(env, j, ShareRecord(j.active.value, op.worker, op.auth, op.share, op.now))
    ensures Acknowledged(env, j, op) && |LiveStep(env, j, op).log| == |j.log| + 1 <==>
            && WellFormed(j, op.worker, op.auth, op.jobId, op.share, op.now)
            && !SharedIn(j.log, op.jobId, ShareIdOf(op.jobId, op.share.parentHash))
            && HasRoom(env.check, j.log, op.jobId, op.share)
    ensures LiveStep(env, j, op).log != j.log ==>
            && WellFormed(j, op.worker, op.auth, op.jobId, op.share, op.now)
            && LiveStep(env, j, op).log == j.log + [ShareRecord(j.active.value, op.worker, op.auth, op.share, op.now)]
  {
    ShareWrittenIff(env, j, op);
    if Decide(env, j, op).Write? { WrittenDurably(env, j, op); } else { NotWritten(env, j, op); }
  }

  /** The same for an activation, whose job is then the active one. */
  lemma {:induction false} ActivationRecordedIff(env: Env, j: Journal, op: Op)
    requires Live(env, j) && !j.poisoned && op.Activate? && op.io.Durable?
    requires RecordFits(env, j, ActivationRecord(op.job, op.now))
    ensures Acknowledged(env, j, op) <==> Activatable(j.log, op.job)
    ensures LiveStep(env, j, op) == if Activatable(j.log, op.job)
                                    then j.(log := j.log + [ActivationRecord(op.job, op.now)], active := Some(op.job))
                                    else j
  {
    ActivationWrittenIff(env, j, op.job, op.now, op.io);
    if Decide(env, j, op).Write? { WrittenDurably(env, j, op); } else { NotWritten(env, j, op); }
  }

  /* ----- what a failed append leaves ----- */

  /** How many bytes of the record reach the disk. */
  function BytesKept(io: Append, frame: nat): nat {
    match io
    case PathLost => 0
    case Torn(kept) => if kept < frame then kept else frame
    case PathReplaced => frame
    case Durable => frame
  }

  lemma {:induction false} PerformUndurably(env: Env, j: Journal, r: Record, op: Op)
    requires !op.Reopen? && !op.io.Durable? && !j.poisoned && j.failed.None? && RecordFits(env, j, r)
    ensures var after := Perform(env.codec, j, Write(r), op);
            && !after.1 && after.0.poisoned && after.0.log == j.log && after.0.active == j.active
            && Disk(env.codec, after.0)
               == Disk(env.codec, j) + Frame(env.codec, r)[..BytesKept(op.io, |Frame(env.codec, r)|)]
  {
    assert Disk(env.codec, j) == Durably(env.codec, j.log);
  }

  /**
   A record that fits and does not become durable is not acknowledged and poisons the journal; what reaches the
   disk is the part of its line that the operating system kept.
   */
  lemma {:induction false} UndurablePoisons(env: Env, j: Journal, op: Op)
    requires Live(env, j) && !j.poisoned && !op.Reopen? && !op.io.Durable? && Decide(env, j, op).Write?
    requires RecordFits(env, j, Decide(env, j, op).record)
    ensures var after, line := LiveStep(env, j, op), Frame(env.codec, Decide(env, j, op).record);
            && !Acknowledged(env, j, op) && after.poisoned && after.log == j.log && after.active == j.active
            && Disk(env.codec, after) == Disk(env.codec, j) + line[..BytesKept(op.io, |line|)]
  {
    PerformUndurably(env, j, Decide(env, j, op).record, op);
  }

  lemma {:induction false} PerformNothing(env: Env, j: Journal, r: Record, op: Op)
    requires !op.Reopen? && (j.poisoned || !RecordFits(env, j, r))
    ensures Perform(env.codec, j, Write(r), op) == (j, false)
  {
  }

  /** A poisoned journal, or one without room for the record, refuses it and stays as it was. */
  lemma {:induction false} NothingWritten(env: Env, j: Journal, op: Op)
    requires !op.Reopen? && Decide(env, j, op).Write?
    requires j.poisoned || !RecordFits(env, j, Decide(env, j, op).record)
    ensures LiveStep(env, j, op) == j && !Acknowledged(env, j, op)
  {
    PerformNothing(env, j, Decide(env, j, op).record, op);
  }
}
