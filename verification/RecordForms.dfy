/**
 The reader accepts exactly what the writer writes: every record that passes the field checks is one that the
 writer would build for some job, share, winner and time, and every such record passes them.
 */
module RecordForms {
  import opened Common
  import opened Hex
  import opened JournalRecord
  import opened Accounting
  import opened Replay
  import opened JournalModel
  import opened LiveJournal

  /* ----- byte order and hexadecimal text ----- */

  lemma {:induction false} ReversedTwice(s: seq<byte>)
    ensures Reversed(Reversed(s)) == s
  {
  }

  /** Hash text shows the last byte first, two digits per byte, high digit first. */
  lemma {:induction false} DisplayOrder(raw: seq<byte>, i: nat)
    requires i < |raw|
    ensures |DisplayHash(raw)| == 2 * |raw|
    ensures HexVal(DisplayHash(raw)[2 * i]) == Some(raw[|raw| - 1 - i] / 16)
    ensures HexVal(DisplayHash(raw)[2 * i + 1]) == Some(raw[|raw| - 1 - i] % 16)
  {
    DigitsAt(Reversed(raw), i);
  }

  lemma {:induction false} DigitsAt(bytes: seq<byte>, i: nat)
    requires i < |bytes|
    ensures |HexEncode(bytes)| == 2 * |bytes|
    ensures HexVal(HexEncode(bytes)[2 * i]) == Some(bytes[i] / 16)
    ensures HexVal(HexEncode(bytes)[2 * i + 1]) == Some(bytes[i] % 16)
  {
    DecodeEncode(bytes);
    if i == 0 {
      DigitValue(bytes[0] / 16);
      DigitValue(bytes[0] % 16);
    } else {
      DigitsAt(bytes[1..], i - 1);
      DecodeEncode(bytes[1..]);
      var rest := HexEncode(bytes[1..]);
      assert HexEncode(bytes)[2 * i] == rest[2 * (i - 1)] && HexEncode(bytes)[2 * i + 1] == rest[2 * (i - 1) + 1];
    }
  }

  /** The bytes of a worker name: digits, letters, dot, hyphen, underscore and colon, by their codes. */
  predicate NameByte(code: int) {
    48 <= code <= 57 || 65 <= code <= 90 || 97 <= code <= 122 || code == 46 || code == 45 || code == 95 || code == 58
  }

  /** A worker name has 1 to 128 such bytes; a name without provenance may have any but control characters. */
  lemma {:induction false} WorkerNames(worker: string)
    ensures ValidWorkerName(worker) <==>
            1 <= |worker| <= 128 && forall i :: 0 <= i < |worker| ==> NameByte(worker[i] as int)
    ensures ValidLegacyWorkerName(worker) <==>
            1 <= |worker| <= 128 && forall i :: 0 <= i < |worker| ==> worker[i] as int >= 32 && worker[i] as int != 127
    ensures ValidWorkerName(worker) ==> ValidLegacyWorkerName(worker)
  {
    if !ValidWorkerName(worker) && 1 <= |worker| <= 128 {
      var i :| 0 <= i < |worker| && !NameByte(worker[i] as int);
    }
  }

  /* ----- activations ----- */

  predicate IsActivation(r: Record, job: ActiveJob, now: u64) {
    GoodJob(job) && now > 0 && r == ActivationRecord(job, now)
  }

  /** An activation passes the field checks if and only if it is what the writer builds for a good job at some time. */
  lemma {:induction false} ActivationForm(r: Record)
    ensures (r.tag.JobActivated? && r.version == 2 && ValidateCanonical32(r.jobId).Some? && ValidJobActivation(r)) <==>
            exists job, now :: IsActivation(r, job, now)
  {
    if r.tag.JobActivated? && r.version == 2 && ValidateCanonical32(r.jobId).Some? && ValidJobActivation(r) {
      var job := ActiveJob(r.jobId, r.wcashBlockHash.value, r.wcashHeight.value, r.zcashHeight.value);
      assert IsActivation(r, job, r.recordedAt.value);
    }
  }

  /** The coordinator's own check of an activation accepts the same records, apart from explicit false flags. */
  lemma {:induction false} PersistedActivationForm(r: Record)
    requires ValidateCanonical32(r.jobId).Some?
    ensures ValidJobActivation(r) <==>
            ValidPersistedActivation(r) && r.wcashCandidate.None? && r.zcashCandidate.None?
  {
    if r.wcashBlockHash.Some? { CanonicalParsersAgree(r.wcashBlockHash.value); }
  }

  /* ----- status marks ----- */

  predicate MarkableWinner(w: PendingWinner) {
    ValidateCanonical32(w.jobId).Some? && ValidateCanonical32(w.blockHashDisplay).Some? && w.height > 0
  }

  predicate IsMark(r: Record, w: PendingWinner, now: u64) {
    MarkableWinner(w) && now > 0 && r == StatusRecord(w, Observed, now).(tag := r.tag)
  }

  /** A status record passes the field checks if and only if it is what the writer builds for some winner and time. */
  lemma {:induction false} MarkForm(r: Record)
    ensures (r.version == 2 && ValidStatusFields(r)) <==> exists w, now :: IsMark(r, w, now)
  {
    if r.version == 2 && ValidStatusFields(r) {
      var key := WinnerKey(r.shareId.value.digest, ParseChain(r.chain).value);
      var w := PendingWinner(key, r.jobId, r.blockHash.value, r.height.value, [], false, false);
      assert r.chain == Some(ChainName(key.chain));
      assert IsMark(r, w, r.recordedAt.value);
    }
    if w, now :| IsMark(r, w, now) { ChainRoundTrip(w.key.chain); }
  }

  /* ----- shares ----- */

  predicate IsWritten(
    check: BlockCheck, r: Record, job: ActiveJob, worker: string, auth: Authentication, share: NativeShare, now: u64)
  {
    && GoodJob(job) && ValidWorkerName(worker) && auth != LegacyUnknown && now > 0
    && (share.wcashBlock.Some? ==> share.wcashBlock.value.Ok?) && BlocksValid(check, job, share)
    && r == ShareRecord(job, worker, auth, share, now)
  }

  function BlockOf(flag: Option<bool>, text: Option<string>): Option<seq<byte>> {
    if flag == Some(true) && text.Some? then HexDecode(text.value) else None
  }

  /** The share that a checked record was written for. */
  function ShareIn(r: Record): NativeShare
    requires ValidShareFields(r)
  {
    var target := Reversed(ValidateCanonical32(r.shareTarget.value).value);
    var wcash := BlockOf(r.wcashCandidate, r.wcashBlock);
    assert NonZero(target) by { TargetIsNonZero(r); }
    NativeShare(ValidateCanonical32(r.parentHashLe.value).value, target,
                if wcash.None? then None else Some(Ok(wcash.value)), BlockOf(r.zcashCandidate, r.zcashBlock))
  }

  lemma {:induction false} TargetIsNonZero(r: Record)
    requires ValidShareFields(r)
    ensures NonZero(Reversed(ValidateCanonical32(r.shareTarget.value).value))
  {
    var raw := ValidateCanonical32(r.shareTarget.value).value;
    var i :| 0 <= i < 32 && raw[i] != 0;
    assert Reversed(raw)[31 - i] == raw[i];
  }

  /** A block text that passes is what the writer writes for the bytes it stands for. */
  lemma {:induction false} BlockTextForm(text: Option<string>)
    requires DecodeBoundedBlock(text).Ok?
    ensures var b := DecodeBoundedBlock(text).value;
            text == Some(HexEncode(b)) && HexDecode(text.value) == Some(b) && |b| <= MAX_WINNER_BLOCK_BYTES
  {
    DecodeLength(text.value);
  }

  lemma {:induction false} WcashForm(check: BlockCheck, r: Record, id: Digest, parent: seq<byte>)
    requires WcashPart(check, r, id, parent).Ok? && r.wcashCandidate.Some?
    ensures var b := BlockOf(r.wcashCandidate, r.wcashBlock);
            && r.wcashCandidate == Some(b.Some?) && r.wcashBlock == BlockText(b)
            && (b.Some? ==> r.wcashBlockHash.Some? && r.wcashHeight.Some?
                            && BlockValid(check, b.value, r.wcashBlockHash.value, r.wcashHeight.value, Wcash, parent))
  {
    FlagIs(r.wcashCandidate);
    if Candidate(r.wcashCandidate) { BlockTextForm(r.wcashBlock); }
  }

  lemma {:induction false} ZcashForm(check: BlockCheck, r: Record, id: Digest, parent: seq<byte>)
    requires ZcashPart(check, r, id, parent).Ok? && r.zcashCandidate.Some?
    ensures var b := BlockOf(r.zcashCandidate, r.zcashBlock);
            && r.zcashCandidate == Some(b.Some?) && r.zcashBlock == BlockText(b)
            && (b.Some? ==> r.zcashHeight.Some?
                            && BlockValid(check, b.value, DisplayHash(parent), r.zcashHeight.value, Zcash, parent))
  {
    FlagIs(r.zcashCandidate);
    if Candidate(r.zcashCandidate) { BlockTextForm(r.zcashBlock); }
  }

  /** The blocks of a checked share: present exactly where its flags say, canonical, and valid. */
  lemma {:induction false} BlocksForm(check: BlockCheck, r: Record, id: Digest)
    requires ValidShareFields(r) && IsShare(r.tag) && ValidateWinnerBlocks(check, r, id).Ok?
    ensures var job := JobIn(r);
            && BlocksValid(check, job, ShareIn(r))
            && r.wcashBlock == BlockText(BlockOf(r.wcashCandidate, r.wcashBlock))
            && r.zcashBlock == BlockText(BlockOf(r.zcashCandidate, r.zcashBlock))
            && r.wcashCandidate == Some(ShareIn(r).wcashBlock.Some?)
            && r.zcashCandidate == Some(ShareIn(r).zcashBlock.Some?)
  {
    if r.tag.WinnerOutbox? {
      var parent := ValidateCanonical32(r.parentHashLe.value).value;
      WcashForm(check, r, id, parent);
      ZcashForm(check, r, id, parent);
    }
  }

  function JobIn(r: Record): ActiveJob
    requires ValidShareFields(r)
  {
    ActiveJob(r.jobId, r.wcashBlockHash.value, r.wcashHeight.value, r.zcashHeight.value)
  }

  /** A checked share is the record that the writer builds for what it says. */
  lemma {:induction false} CheckedIsWritten(ctx: Context, r: Record)
    requires IsShare(r.tag) && r.version == 2 && ValidateCanonical32(r.jobId).Some? && CheckedShare(ctx, r).Ok?
    requires ParseAuthentication(r.workerAuthentication).Some? && r.workerAuthentication.Some?
    ensures IsWritten(ctx.check, r, JobIn(r), r.worker.value, ParseAuthentication(r.workerAuthentication).value,
                      ShareIn(r), r.acceptedAt.value)
  {
    var id := CheckedShare(ctx, r).value.id;
    BlocksForm(ctx.check, r, id);
    ReversedTwice(ValidateCanonical32(r.shareTarget.value).value);
    var auth := ParseAuthentication(r.workerAuthentication).value;
    assert r.workerAuthentication == Some(AuthenticationName(auth)) && auth != LegacyUnknown;
    var b := ShareRecord(JobIn(r), r.worker.value, auth, ShareIn(r), r.acceptedAt.value);
    assert r.shareTarget == b.shareTarget && r.parentHashLe == b.parentHashLe && r.shareId == b.shareId;
    assert r.wcashBlock == b.wcashBlock && r.zcashBlock == b.zcashBlock;
    assert r.tag == b.tag;
  }

  /**
   A share record passes every check that does not depend on history if and only if it is what the writer builds
   for a good job, a valid worker, a known provenance, a positive time and blocks that pass validation.
   */
  lemma {:induction false} ShareForm(ctx: Context, r: Record)
    requires r.workerAuthentication.Some?
    ensures (IsShare(r.tag) && r.version == 2 && ValidateCanonical32(r.jobId).Some? && CheckedShare(ctx, r).Ok?) <==>
            exists job, worker, auth, share, now :: IsWritten(ctx.check, r, job, worker, auth, share, now)
  {
    if IsShare(r.tag) && r.version == 2 && ValidateCanonical32(r.jobId).Some? && CheckedShare(ctx, r).Ok? {
      CheckedIsWritten(ctx, r);
    }
    if job, worker, auth, share, now :| IsWritten(ctx.check, r, job, worker, auth, share, now) {
      ShareChecked(ctx, job, worker, auth, share, now);
    }
  }

  lemma {:induction false} WorkerIrrelevantInParts(
    check: BlockCheck, r: Record, worker: string, auth: string, id: Digest, parent: seq<byte>)
    ensures var b := r.(worker := Some(worker), workerAuthentication := Some(auth));
            && WcashPart(check, b, id, parent) == WcashPart(check, r, id, parent)
            && ZcashPart(check, b, id, parent) == ZcashPart(check, r, id, parent)
  {
  }

  lemma {:induction false} WorkerIrrelevant(check: BlockCheck, r: Record, worker: string, auth: string, id: Digest)
    ensures var b := r.(worker := Some(worker), workerAuthentication := Some(auth));
            && ValidateShareId(b) == ValidateShareId(r)
            && ValidateWinnerBlocks(check, b, id) == ValidateWinnerBlocks(check, r, id)
  {
    if r.parentHashLe.Some? && ValidateCanonical32(r.parentHashLe.value).Some? {
      WorkerIrrelevantInParts(check, r, worker, auth, id, ValidateCanonical32(r.parentHashLe.value).value);
    }
  }

  /** A record without provenance is checked as any other, but for its older rule on worker names. */
  lemma {:induction false} LegacyShareForm(ctx: Context, r: Record)
    requires r.workerAuthentication.None?
    ensures CheckedShare(ctx, r).Ok? <==>
            && r.worker.Some? && 1 <= |r.worker.value| <= 128
            && (forall i :: 0 <= i < |r.worker.value| ==>
                r.worker.value[i] as int >= 32 && r.worker.value[i] as int != 127)
            && CheckedShare(ctx, r.(worker := Some("x"), workerAuthentication := Some("operator"))).Ok?
  {
    assert ValidWorkerName("x");
    if ValidateShareId(r).Ok? { WorkerIrrelevant(ctx.check, r, "x", "operator", ValidateShareId(r).value); }
  }
}
