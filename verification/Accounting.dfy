/**
 The strict accounting interpretation of the journal: what one record does to the
 accepted-share ledger, the pending winners and the payout counters.
 */
module Accounting {
  import opened Common
  import opened Words256
  import opened Hex
  import opened JournalRecord

  datatype ImmutableShare = ImmutableShare(
    acceptedAt: u64,
    worker: string,
    authentication: string,
    jobId: string,
    parentHashLe: string,
    shareTarget: string,
    wcashBlockHash: string,
    wcashHeight: u32,
    zcashHeight: u32,
    wcashCandidate: bool,
    zcashCandidate: bool,
    winnerFingerprint: Option<Digest>)

  datatype PendingStatus = PendingStatus(
    jobId: string, blockHash: string, height: u32, observed: bool, conflicting: bool)

  datatype WorkerCounts = WorkerCounts(
    acceptedShares: nat,
    byAuthentication: map<string, nat>,
    wcashWinners: nat,
    zcashWinners: nat,
    byTarget: map<string, nat>)

  datatype Snapshot = Snapshot(
    acceptedShares: nat,
    byAuthentication: map<string, nat>,
    workers: map<string, WorkerCounts>)

  datatype Ledger = Ledger(
    accepted: map<Digest, ImmutableShare>,
    pending: map<WinnerKey, PendingStatus>,
    usedJobs: set<seq<byte>>,
    snapshot: Snapshot)

  const EMPTY_WORKER := WorkerCounts(0, map[], 0, 0, map[])
  const EMPTY_SNAPSHOT := Snapshot(0, map[], map[])
  const EMPTY_LEDGER := Ledger(map[], map[], {}, EMPTY_SNAPSHOT)

  /* ----- field validation ----- */

  predicate ValidJobActivation(r: Record) {
    && r.recordedAt.Some? && r.recordedAt.value != 0
    && r.acceptedAt.None? && r.shareId.None? && r.worker.None? && r.workerAuthentication.None?
    && r.shareTarget.None? && r.parentHashLe.None?
    && r.wcashCandidate.None? && r.zcashCandidate.None?
    && r.wcashBlock.None? && r.zcashBlock.None?
    && r.chain.None? && r.blockHash.None? && r.height.None?
    && r.wcashBlockHash.Some? && ValidateCanonical32(r.wcashBlockHash.value).Some?
    && r.wcashHeight.Some? && r.wcashHeight.value != 0
    && r.zcashHeight.Some? && r.zcashHeight.value != 0
  }

  const LEGACY_UNKNOWN: string := "legacy_unknown"

  function ValidateAuthentication(text: Option<string>): Option<string> {
    match text
    case None => Some(LEGACY_UNKNOWN)
    case Some(t) =>
      if t == "operator" || t == "exact_credential" || t == "shared_secret" then Some(t) else None
  }

  predicate ValidShareFields(r: Record) {
    && r.acceptedAt.Some? && r.acceptedAt.value != 0 && r.recordedAt.None?
    && r.chain.None? && r.blockHash.None? && r.height.None?
    && r.worker.Some? && ValidateAuthentication(r.workerAuthentication).Some?
    && (if r.workerAuthentication.None? then ValidLegacyWorkerName(r.worker.value)
        else ValidWorkerName(r.worker.value))
    && r.parentHashLe.Some? && ValidateCanonical32(r.parentHashLe.value).Some?
    && r.shareTarget.Some? && ValidateCanonical32(r.shareTarget.value).Some?
    && (exists i :: 0 <= i < 32 && ValidateCanonical32(r.shareTarget.value).value[i] != 0)
    && r.wcashBlockHash.Some? && ValidateCanonical32(r.wcashBlockHash.value).Some?
    && r.wcashHeight.Some? && r.wcashHeight.value > 0
    && r.zcashHeight.Some? && r.zcashHeight.value > 0
    && r.wcashCandidate.Some? && r.zcashCandidate.Some?
    && (r.tag.AcceptedShare? ==> !r.wcashCandidate.value && !r.zcashCandidate.value)
    && (r.tag.WinnerOutbox? ==> r.wcashCandidate.value || r.zcashCandidate.value)
  }

  function ImmutableShareOf(r: Record): Result<ImmutableShare> {
    if !ValidShareFields(r) then Err
    else Ok(ImmutableShare(
      r.acceptedAt.value, r.worker.value, ValidateAuthentication(r.workerAuthentication).value,
      r.jobId, r.parentHashLe.value, r.shareTarget.value, r.wcashBlockHash.value,
      r.wcashHeight.value, r.zcashHeight.value, r.wcashCandidate.value, r.zcashCandidate.value, None))
  }

  /** A share identifier must be the digest of its own job and parent header. */
  function ValidateShareId(r: Record): Result<Digest> {
    if r.shareId.None? || r.shareId.value.Malformed? || r.parentHashLe.None? then Err
    else
      match ValidateCanonical32(r.parentHashLe.value)
      case None => Err
      case Some(parent) =>
        if r.shareId.value.digest == ShareIdOf(r.jobId, parent) then Ok(r.shareId.value.digest) else Err
  }

  /* ----- winner blocks ----- */

  function DecodeBoundedBlock(text: Option<string>): Result<seq<byte>> {
    if text.None? || |text.value| > 2 * MAX_WINNER_BLOCK_BYTES then Err
    else
      match HexDecode(text.value)
      case None => Err
      case Some(bytes) => if text.value == HexEncode(bytes) then Ok(bytes) else Err
  }

  /** The validated bytes of one chain's winner block. */
  function ValidateWinnerBlock(
    check: BlockCheck, chain: Chain, hash: string, height: Option<u32>, text: Option<string>, parent: seq<byte>)
    : Result<seq<byte>>
  {
    if height.None? || height.value == 0 then Err else
    var block :- DecodeBoundedBlock(text);
    if check(block, hash, height.value, chain) == Some(parent) then Ok(block) else Err
  }

  function WinnerOctets(chain: Chain, hash: string, height: u32, block: seq<byte>): seq<int> {
    Ints(ChainName(chain) + "\0") + Ints(hash) + LittleBytes(height, W4) + Sized(block)
  }

  datatype Winners = Winners(entries: seq<(WinnerKey, PendingStatus)>, fingerprint: Option<Digest>)

  const WINNER_DOMAIN: string := "Wcash/share-journal/winner-record/v1\0"

  function WcashPart(check: BlockCheck, r: Record, shareId: Digest, parent: seq<byte>)
    : Result<(seq<(WinnerKey, PendingStatus)>, seq<int>)>
  {
    if !Candidate(r.wcashCandidate) then (if r.wcashBlock.Some? then Err else Ok(([], [])))
    else if r.wcashBlockHash.None? || ValidateCanonical32(r.wcashBlockHash.value).None? then Err
    else
      var hash := r.wcashBlockHash.value;
      var block :- ValidateWinnerBlock(check, Wcash, hash, r.wcashHeight, r.wcashBlock, parent);
      Ok(([(WinnerKey(shareId, Wcash), PendingStatus(r.jobId, hash, r.wcashHeight.value, false, false))],
          WinnerOctets(Wcash, hash, r.wcashHeight.value, block)))
  }

  function ZcashPart(check: BlockCheck, r: Record, shareId: Digest, parent: seq<byte>)
    : Result<(seq<(WinnerKey, PendingStatus)>, seq<int>)>
  {
    if !Candidate(r.zcashCandidate) then (if r.zcashBlock.Some? then Err else Ok(([], [])))
    else
      var hash := DisplayHash(parent);
      var block :- ValidateWinnerBlock(check, Zcash, hash, r.zcashHeight, r.zcashBlock, parent);
      Ok(([(WinnerKey(shareId, Zcash), PendingStatus(r.jobId, hash, r.zcashHeight.value, false, false))],
          WinnerOctets(Zcash, hash, r.zcashHeight.value, block)))
  }

  function ValidateWinnerBlocks(check: BlockCheck, r: Record, shareId: Digest): Result<Winners> {
    if r.tag.AcceptedShare? then
      (if r.wcashBlock.Some? || r.zcashBlock.Some? then Err else Ok(Winners([], None)))
    else if r.parentHashLe.None? || ValidateCanonical32(r.parentHashLe.value).None? then Err
    else
      var parent := ValidateCanonical32(r.parentHashLe.value).value;
      var w :- WcashPart(check, r, shareId, parent);
      var z :- ZcashPart(check, r, shareId, parent);
      if w.0 + z.0 == [] then Err
      else Ok(Winners(w.0 + z.0, Some(Sha256(Ints(WINNER_DOMAIN) + (w.1 + z.1)))))
  }

  /** Inserting winners fails on a key that is already pending. */
  function InsertWinners(
    pending: map<WinnerKey, PendingStatus>, entries: seq<(WinnerKey, PendingStatus)>)
    : Result<map<WinnerKey, PendingStatus>>
    decreases |entries|
  {
    if entries == [] then Ok(pending)
    else if entries[0].0 in pending then Err
    else InsertWinners(pending[entries[0].0 := entries[0].1], entries[1..])
  }

  /* ----- winner status ----- */

  predicate ValidStatusFields(r: Record) {
    && r.recordedAt.Some? && r.recordedAt.value != 0
    && r.acceptedAt.None? && r.worker.None? && r.workerAuthentication.None?
    && r.shareTarget.None? && r.parentHashLe.None?
    && r.wcashCandidate.None? && r.zcashCandidate.None?
    && r.wcashBlockHash.None? && r.wcashHeight.None? && r.zcashHeight.None?
    && r.wcashBlock.None? && r.zcashBlock.None?
    && ValidateCanonical32(r.jobId).Some?
    && r.shareId.Some? && r.shareId.value.Canonical?
    && ParseChain(r.chain).Some?
    && r.blockHash.Some? && ValidateCanonical32(r.blockHash.value).Some?
    && r.height.Some? && r.height.value > 0
  }

  /** What a status record does to the winner it names. */
  datatype StatusEffect = Becomes(observed: bool, conflicting: bool) | Removed

  function EffectOf(tag: Tag, chain: Chain, p: PendingStatus): Result<StatusEffect> {
    match tag
    case WinnerObserved | WinnerConfirmed => if p.observed then Err else Ok(Becomes(true, false))
    case WinnerOrphaned => if p.observed || p.conflicting then Ok(Becomes(false, false)) else Err
    case WinnerConflicting => if chain != Wcash || p.conflicting then Err else Ok(Becomes(false, true))
    case WinnerMatured => if p.observed && !p.conflicting then Ok(Removed) else Err
    case _ => Err
  }

  function ApplyWinnerStatus(pending: map<WinnerKey, PendingStatus>, r: Record)
    : Result<map<WinnerKey, PendingStatus>>
  {
    if !ValidStatusFields(r) then Err else
    var chain := ParseChain(r.chain).value;
    var key := WinnerKey(r.shareId.value.digest, chain);
    if key !in pending then Err else
    var p := pending[key];
    if p.jobId != r.jobId || p.blockHash != r.blockHash.value || p.height != r.height.value then Err else
    var effect :- EffectOf(r.tag, chain, p);
    match effect
    case Becomes(o, c) => Ok(pending[key := p.(observed := o, conflicting := c)])
    case Removed => Ok(pending - {key})
  }

  /* ----- payout counters ----- */

  /** A checked 64-bit increment. */
  function CheckedIncrement(n: nat): Result<nat> {
    if n + 1 > U64_MAX then Err else Ok(n + 1)
  }

  function Count(buckets: map<string, nat>, key: string): nat {
    if key in buckets then buckets[key] else 0
  }

  function IncrementBucket(buckets: map<string, nat>, key: string): Result<map<string, nat>> {
    var n :- CheckedIncrement(Count(buckets, key));
    Ok(buckets[key := n])
  }

  function CountWorker(w: WorkerCounts, share: ImmutableShare): Result<WorkerCounts> {
    var total :- CheckedIncrement(w.acceptedShares);
    var auth :- IncrementBucket(w.byAuthentication, share.authentication);
    var wins :- if share.wcashCandidate then CheckedIncrement(w.wcashWinners) else Ok(w.wcashWinners);
    var zins :- if share.zcashCandidate then CheckedIncrement(w.zcashWinners) else Ok(w.zcashWinners);
    var target :- IncrementBucket(w.byTarget, share.shareTarget);
    Ok(WorkerCounts(total, auth, wins, zins, target))
  }

  function WorkerOf(s: Snapshot, worker: string): WorkerCounts {
    if worker in s.workers then s.workers[worker] else EMPTY_WORKER
  }

  function ApplyShare(s: Snapshot, share: ImmutableShare): Result<Snapshot> {
    var total :- CheckedIncrement(s.acceptedShares);
    var auth :- IncrementBucket(s.byAuthentication, share.authentication);
    var w :- CountWorker(WorkerOf(s, share.worker), share);
    Ok(Snapshot(total, auth, s.workers[share.worker := w]))
  }

  /* ----- one record, and a whole journal ----- */

  predicate GenerationCapacity(count: nat, alreadySeen: bool) {
    alreadySeen || count < MAX_JOURNAL_GENERATIONS
  }

  /** What a share record says once every check that does not depend on history has passed. */
  datatype Checked = Checked(id: Digest, share: ImmutableShare, winners: Winners)

  function CheckedShare(ctx: Context, r: Record): Result<Checked> {
    var immutable :- ImmutableShareOf(r);
    var shareId :- ValidateShareId(r);
    var winners :- ValidateWinnerBlocks(ctx.check, r, shareId);
    Ok(Checked(shareId, immutable.(winnerFingerprint := winners.fingerprint), winners))
  }

  /** A checked share enters the ledger once; an equal copy changes nothing, a different one is an error. */
  function AccountChecked(maxShares: nat, l: Ledger, jobId: seq<byte>, c: Checked): Result<Ledger> {
    if !GenerationCapacity(|l.usedJobs|, jobId in l.usedJobs) then Err else
    var l := l.(usedJobs := l.usedJobs + {jobId});
    if c.id in l.accepted then (if l.accepted[c.id] == c.share then Ok(l) else Err)
    else if |l.accepted| >= maxShares then Err
    else
      var snapshot :- ApplyShare(l.snapshot, c.share);
      var pending :- InsertWinners(l.pending, c.winners.entries);
      Ok(l.(accepted := l.accepted[c.id := c.share], pending := pending, snapshot := snapshot))
  }

  function AccountRecord(ctx: Context, l: Ledger, r: Record): Result<Ledger> {
    if r.version != JOURNAL_VERSION || ValidateCanonical32(r.jobId).None? then Err else
    var jobId := ValidateCanonical32(r.jobId).value;
    if r.tag.JobActivated? then
      if !ValidJobActivation(r) || jobId in l.usedJobs || !GenerationCapacity(|l.usedJobs|, false) then Err
      else Ok(l.(usedJobs := l.usedJobs + {jobId}))
    else if IsShare(r.tag) then
      var c :- CheckedShare(ctx, r);
      AccountChecked(ctx.maxShares, l, jobId, c)
    else if IsStatus(r.tag) then
      var pending :- ApplyWinnerStatus(l.pending, r);
      Ok(l.(pending := pending))
    else Err
  }

  /** The ledger after `rs`, read in order from the ledger `l`. */
  function AccountFrom(ctx: Context, l: Ledger, rs: seq<Record>): Result<Ledger> {
    if rs == [] then Ok(l)
    else
      var before :- AccountFrom(ctx, l, rs[..|rs| - 1]);
      AccountRecord(ctx, before, rs[|rs| - 1])
  }

  function AccountAll(ctx: Context, rs: seq<Record>): Result<Ledger> {
    AccountFrom(ctx, EMPTY_LEDGER, rs)
  }

  lemma {:induction false} AccountFromAppend(ctx: Context, l: Ledger, a: seq<Record>, b: seq<Record>)
    ensures AccountFrom(ctx, l, a + b)
         == match AccountFrom(ctx, l, a) case Err => Err case Ok(m) => AccountFrom(ctx, m, b)
  {
    if b == [] {
      assert a + b == a;
    } else {
      var n := |b| - 1;
      assert (a + b)[..|a + b| - 1] == a + b[..n] && (a + b)[|a + b| - 1] == b[n];
      AccountFromAppend(ctx, l, a, b[..n]);
    }
  }
}
