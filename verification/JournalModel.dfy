/**
 The live share journal as a log.  Its abstract state is the acknowledged records, the bytes of
 at most one failed append behind them, and the active job; everything held in memory is what
 the log denotes.
 */
module JournalModel {
  import opened Common
  import opened Framing
  import opened Hex
  import opened JournalRecord
  import opened Accounting
  import opened Replay

  const MAX_JOURNAL_BYTES: nat := 1024 * 1024 * 1024

  type Hash32 = s: seq<byte> | |s| == 32 witness seq(32, (i: nat) => 1)

  predicate NonZero(s: Hash32) { exists i :: 0 <= i < 32 && s[i] != 0 }

  /** A proof-of-work target is never zero. */
  type TargetBytes = s: Hash32 | NonZero(s) witness (var one := seq(32, (i: nat) => 1); assert one[0] == 1; one)

  /** Record text on disk: an encoder without raw newlines and its decoder. */
  datatype Codec = Codec(encode: Record -> seq<byte>, decode: seq<byte> -> Option<Record>)

  ghost predicate Faithful(codec: Codec) {
    forall r: Record :: codec.decode(codec.encode(r)) == Some(r) && NEWLINE !in codec.encode(r)
  }

  datatype Env = Env(codec: Codec, check: BlockCheck)

  datatype ActiveJob = ActiveJob(jobId: string, childHashDisplay: string, childHeight: u32, parentHeight: u32)

  datatype Authentication = Operator | ExactCredential | SharedSecret | LegacyUnknown

  function AuthenticationName(a: Authentication): string {
    match a
    case Operator => "operator"
    case ExactCredential => "exact_credential"
    case SharedSecret => "shared_secret"
    case LegacyUnknown => LEGACY_UNKNOWN
  }

  /** A validated share.  A Wcash candidate's block is completed from its proof, which can fail. */
  datatype NativeShare = NativeShare(
    parentHash: Hash32,
    target: TargetBytes,
    wcashBlock: Option<Result<seq<byte>>>,
    zcashBlock: Option<seq<byte>>)

  datatype Status = Observed | Orphaned | Conflicting | Matured

  function StatusTag(status: Status): Tag {
    match status
    case Observed => WinnerObserved
    case Orphaned => WinnerOrphaned
    case Conflicting => WinnerConflicting
    case Matured => WinnerMatured
  }

  /** What the operating system does to one append. */
  datatype Append =
    | PathLost            // the path check before the write fails
    | Torn(kept: nat)     // the write or the sync fails and `kept` bytes reached the disk
    | PathReplaced        // the record is on disk but the path check after the sync fails
    | Durable             // the append is acknowledged

  /** What a live retry of a share is compared with. */
  datatype Identity = Identity(
    worker: string, authentication: Authentication, acceptedAt: Option<u64>, fingerprint: Digest)

  /** An append that was not acknowledged: the record, and how many of its bytes may be on disk. */
  datatype FailedAppend = FailedAppend(record: Record, kept: nat)

  datatype Journal = Journal(log: seq<Record>, failed: Option<FailedAppend>, poisoned: bool, active: Option<ActiveJob>)

  /* ----- records the writer builds ----- */

  const BLANK := Record(JOURNAL_VERSION, JobActivated, "", None, None, None, None, None, None, None,
                        None, None, None, None, None, None, None, None, None, None)

  function ActivationRecord(job: ActiveJob, now: u64): Record {
    BLANK.(jobId := job.jobId, recordedAt := Some(now), wcashBlockHash := Some(job.childHashDisplay),
           wcashHeight := Some(job.childHeight), zcashHeight := Some(job.parentHeight))
  }

  function BlockText(block: Option<seq<byte>>): Option<string> {
    match block case None => None case Some(b) => Some(HexEncode(b))
  }

  function CompletedWcash(share: NativeShare): Option<seq<byte>>
    requires share.wcashBlock.Some? ==> share.wcashBlock.value.Ok?
  {
    match share.wcashBlock case None => None case Some(b) => Some(b.value)
  }

  function ShareRecord(job: ActiveJob, worker: string, auth: Authentication, share: NativeShare, now: u64): Record
    requires share.wcashBlock.Some? ==> share.wcashBlock.value.Ok?
  {
    var winner := share.wcashBlock.Some? || share.zcashBlock.Some?;
    BLANK.(tag := if winner then WinnerOutbox else AcceptedShare,
           jobId := job.jobId,
           shareId := Some(Canonical(ShareIdOf(job.jobId, share.parentHash))),
           acceptedAt := Some(now),
           worker := Some(worker),
           workerAuthentication := Some(AuthenticationName(auth)),
           shareTarget := Some(DisplayHash(share.target)),
           parentHashLe := Some(HexEncode(share.parentHash)),
           wcashCandidate := Some(share.wcashBlock.Some?),
           zcashCandidate := Some(share.zcashBlock.Some?),
           wcashBlockHash := Some(job.childHashDisplay),
           wcashHeight := Some(job.childHeight),
           zcashHeight := Some(job.parentHeight),
           wcashBlock := BlockText(CompletedWcash(share)),
           zcashBlock := BlockText(share.zcashBlock))
  }

  function StatusRecord(winner: PendingWinner, status: Status, now: u64): Record {
    BLANK.(tag := StatusTag(status), jobId := winner.jobId, recordedAt := Some(now),
           shareId := Some(Canonical(winner.key.shareId)), chain := Some(ChainName(winner.key.chain)),
           blockHash := Some(winner.blockHashDisplay), height := Some(winner.height))
  }

  function IdentityOf(r: Record, auth: Authentication): Identity {
    Identity(if r.worker.Some? then r.worker.value else "", auth, r.acceptedAt, ShareFingerprint(r))
  }

  function ParseAuthentication(text: Option<string>): Option<Authentication> {
    if text == Some("operator") then Some(Operator)
    else if text == Some("exact_credential") then Some(ExactCredential)
    else if text == Some("shared_secret") then Some(SharedSecret)
    else if text == None then Some(LegacyUnknown)
    else None
  }

  /* ----- decisions: what an operation wants to append ----- */

  datatype Decision = Refuse | NoChange | Write(record: Record)

  function DecideActivation(seen: set<seq<byte>>, job: ActiveJob, now: u64): Decision {
    match ParseCanonicalId(job.jobId)
    case None => Refuse
    case Some(id) =>
      if ParseCanonicalId(job.childHashDisplay).None? || job.childHeight == 0 || job.parentHeight == 0 then Refuse
      else if id in seen || |seen| >= MAX_JOURNAL_GENERATIONS then Refuse
      else Write(ActivationRecord(job, now))
  }

  /** The retained identity of a share of the active job, plain or winning. */
  function KnownIdentity(plain: map<Digest, Identity>, winning: map<Digest, Identity>, id: Digest): Option<Identity> {
    if id in plain then Some(plain[id]) else if id in winning then Some(winning[id]) else None
  }

  predicate SameReplay(a: Identity, b: Identity) {
    a.worker == b.worker && a.authentication == b.authentication && a.fingerprint == b.fingerprint
  }

  function AdditionalWinners(pending: map<WinnerKey, PendingWinner>, id: Digest, share: NativeShare): nat {
    (if share.wcashBlock.Some? && WinnerKey(id, Wcash) !in pending then 1 else 0)
    + (if share.zcashBlock.Some? && WinnerKey(id, Zcash) !in pending then 1 else 0)
  }

  function DecideShare(
    active: Option<ActiveJob>, plain: map<Digest, Identity>, winning: map<Digest, Identity>,
    pending: map<WinnerKey, PendingWinner>,
    worker: string, auth: Authentication, jobId: string, share: NativeShare, now: u64): Decision
  {
    if !ValidWorkerName(worker) || active.None? || active.value.jobId != jobId then Refuse
    else if share.wcashBlock.Some? && share.wcashBlock.value.Err? then Refuse
    else
      var r := ShareRecord(active.value, worker, auth, share, now);
      var id := ShareIdOf(jobId, share.parentHash);
      // An identity is read back from the record text, which has no name for an unknown provenance.
      if now == 0 || ParseAuthentication(r.workerAuthentication).None? then Refuse
      else if KnownIdentity(plain, winning, id).Some? then
        (if SameReplay(KnownIdentity(plain, winning, id).value, IdentityOf(r, auth)) then NoChange else Refuse)
      else if r.tag.AcceptedShare? && |plain| >= MAX_SHARES_PER_JOB then Refuse
      else if r.tag.WinnerOutbox? && |pending| + AdditionalWinners(pending, id, share) > MAX_PENDING_WINNERS then Refuse
      else Write(r)
  }

  function DecideStatus(
    pending: map<WinnerKey, PendingWinner>, winner: PendingWinner, status: Status, now: u64): Decision
  {
    if winner.key !in pending then NoChange else
    var c := pending[winner.key];
    if c.jobId != winner.jobId || c.blockHashDisplay != winner.blockHashDisplay
       || c.height != winner.height || c.blockBytes != winner.blockBytes then Refuse
    else if status.Observed? && c.observedOnBestChain && !c.conflictingWitness then NoChange
    else if status.Orphaned? && !c.observedOnBestChain && !c.conflictingWitness then NoChange
    else if status.Conflicting? && c.key.chain != Wcash then Refuse
    else if status.Conflicting? && c.conflictingWitness then NoChange
    else if status.Matured? && (!c.observedOnBestChain || c.conflictingWitness) then Refuse
    else Write(StatusRecord(winner, status, now))
  }

  /* ----- the disk ----- */

  function Encoded(codec: Codec, log: seq<Record>): seq<seq<byte>> {
    seq(|log|, i requires 0 <= i < |log| => codec.encode(log[i]))
  }

  function Durably(codec: Codec, log: seq<Record>): seq<byte> { Join(Encoded(codec, log)) }

  function Frame(codec: Codec, r: Record): seq<byte> { codec.encode(r) + [NEWLINE] }

  function Tail(codec: Codec, failed: Option<FailedAppend>): seq<byte> {
    match failed
    case None => []
    case Some(f) => Frame(codec, f.record)[..Min(f.kept, |Frame(codec, f.record)|)]
  }

  function Disk(codec: Codec, j: Journal): seq<byte> { Durably(codec, j.log) + Tail(codec, j.failed) }

  /** The records that are complete on disk, acknowledged or not. */
  function Complete(codec: Codec, j: Journal): seq<Record> {
    if j.failed.Some? && j.failed.value.kept >= |Frame(codec, j.failed.value.record)|
    then j.log + [j.failed.value.record] else j.log
  }

  /** One append under the outcome `io`, and whether it was acknowledged. */
  function AppendRecord(codec: Codec, j: Journal, r: Record, io: Append): (Journal, bool) {
    var f := Frame(codec, r);
    if j.poisoned || |f| > MAX_JOURNAL_RECORD_BYTES || |Durably(codec, j.log)| + |f| > MAX_JOURNAL_BYTES then (j, false)
    else
      match io
      case PathLost => (j.(poisoned := true), false)
      case Torn(kept) => (j.(poisoned := true, failed := Some(FailedAppend(r, kept))), false)
      case PathReplaced => (j.(poisoned := true, failed := Some(FailedAppend(r, |f|))), false)
      case Durable => (j.(log := j.log + [r]), true)
  }

  /* ----- what the log denotes in memory ----- */

  /** Limits that no journal of this length reaches, for the state of the live writer. */
  function FreeContext(check: BlockCheck, log: seq<Record>): Context { Context(check, |log|, |log|) }

  function Memory(check: BlockCheck, log: seq<Record>): ReplayState {
    match ReplayAll(FreeContext(check, log), log) case Ok(s) => s case Err => EMPTY_REPLAY
  }

  /** The identities retained for the shares of one job. */
  function Retained(log: seq<Record>, job: Option<ActiveJob>, tag: Tag): map<Digest, Identity> {
    if log == [] || job.None? then map[]
    else
      var before := Retained(log[..|log| - 1], job, tag);
      var r := log[|log| - 1];
      if r.tag == tag && r.jobId == job.value.jobId && r.shareId.Some? && r.shareId.value.Canonical?
         && ParseAuthentication(r.workerAuthentication).Some?
      then before[r.shareId.value.digest := IdentityOf(r, ParseAuthentication(r.workerAuthentication).value)]
      else before
  }

  /* ----- opening ----- */

  function DecodeAll(decode: seq<byte> -> Option<Record>, lines: seq<seq<byte>>): Option<seq<Record>> {
    if lines == [] then Some([])
    else
      match (DecodeAll(decode, lines[..|lines| - 1]), decode(lines[|lines| - 1]))
      case (Some(rs), Some(r)) => Some(rs + [r])
      case _ => None
  }

  /** The complete records of a disk image, when opening it succeeds. */
  function OpenDisk(env: Env, ctx: Context, disk: seq<byte>): Result<seq<Record>> {
    if |disk| > MAX_JOURNAL_BYTES || !Readable(disk) then Err
    else
      match DecodeAll(env.codec.decode, Split(disk).lines)
      case None => Err
      case Some(rs) => if AccountAll(ctx, rs).Ok? && ReplayAll(ctx, rs).Ok? then Ok(rs) else Err
  }

  /** The context of the released reader. */
  function Released(check: BlockCheck): Context {
    Context(check, MAX_ACCOUNTING_SHARES, MAX_REPLAYED_WINNER_SHARES)
  }

  /* ----- operations ----- */

  datatype Op =
    | Activate(job: ActiveJob, now: u64, io: Append)
    | Share(worker: string, auth: Authentication, jobId: string, share: NativeShare, now: u64, io: Append)
    | Mark(winner: PendingWinner, status: Status, now: u64, io: Append)
    | Reopen

  function Decide(env: Env, j: Journal, op: Op): Decision
    requires !op.Reopen?
  {
    var m := Memory(env.check, j.log);
    match op
    case Activate(job, now, _) => DecideActivation(m.seenJobIds, job, now)
    case Share(worker, auth, jobId, share, now, _) =>
      DecideShare(j.active, Retained(j.log, j.active, AcceptedShare), Retained(j.log, j.active, WinnerOutbox),
                  m.pending, worker, auth, jobId, share, now)
    case Mark(winner, status, now, _) => DecideStatus(m.pending, winner, status, now)
  }

  /** Carries out a decision: appends what was decided, and makes an acknowledged activation current. */
  function Perform(codec: Codec, j: Journal, d: Decision, op: Op): (Journal, bool)
    requires !op.Reopen?
  {
    match d
    case Refuse => (j, false)
    case NoChange => (j, true)
    case Write(r) =>
      var (j', acknowledged) := AppendRecord(codec, j, r, op.io);
      if acknowledged && op.Activate? then (j'.(active := Some(op.job)), true) else (j', acknowledged)
  }

  /** The journal after a live operation. */
  function LiveStep(env: Env, j: Journal, op: Op): Journal
    requires !op.Reopen?
  {
    Perform(env.codec, j, Decide(env, j, op), op).0
  }

  /** Whether a live operation reports success to its caller. */
  predicate Acknowledged(env: Env, j: Journal, op: Op)
    requires !op.Reopen?
  {
    Perform(env.codec, j, Decide(env, j, op), op).1
  }

  /** A crash or shutdown and a restart.  A journal that cannot be opened accepts nothing more. */
  function Restart(env: Env, j: Journal): Journal {
    match OpenDisk(env, Released(env.check), Disk(env.codec, j))
    case Ok(rs) => Journal(rs, None, false, None)
    case Err => j.(poisoned := true)
  }

  function Step(env: Env, j: Journal, op: Op): Journal {
    if op.Reopen? then Restart(env, j) else LiveStep(env, j, op)
  }

  function Run(env: Env, j: Journal, ops: seq<Op>): Journal {
    if ops == [] then j else Step(env, Run(env, j, ops[..|ops| - 1]), ops[|ops| - 1])
  }
}
