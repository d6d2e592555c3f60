/** The coordinator's own replay of the journal when it is opened. */
module Replay {
  import opened Common
  import opened Hex
  import opened JournalRecord

  datatype PendingWinner = PendingWinner(
    key: WinnerKey,
    jobId: string,
    blockHashDisplay: string,
    height: u32,
    blockBytes: seq<byte>,
    observedOnBestChain: bool,
    conflictingWitness: bool)

  datatype ReplayState = ReplayState(
    seenJobIds: set<seq<byte>>,
    identities: map<Digest, Digest>,
    pending: map<WinnerKey, PendingWinner>)

  const EMPTY_REPLAY := ReplayState({}, map[], map[])

  predicate ValidPersistedActivation(r: Record) {
    && r.recordedAt.Some? && r.recordedAt.value != 0
    && r.acceptedAt.None? && r.shareId.None? && r.worker.None? && r.workerAuthentication.None?
    && r.parentHashLe.None? && r.shareTarget.None?
    && !Candidate(r.wcashCandidate) && !Candidate(r.zcashCandidate)
    && r.wcashBlock.None? && r.zcashBlock.None?
    && r.chain.None? && r.blockHash.None? && r.height.None?
    && r.wcashBlockHash.Some? && ParseCanonicalId(r.wcashBlockHash.value).Some?
    && r.wcashHeight.Some? && r.wcashHeight.value != 0
    && r.zcashHeight.Some? && r.zcashHeight.value != 0
  }

  function RequiredShareId(r: Record): Result<Digest> {
    if r.shareId.Some? && r.shareId.value.Canonical? then Ok(r.shareId.value.digest) else Err
  }

  function InsertSeen(seen: set<seq<byte>>, jobId: seq<byte>): Result<set<seq<byte>>> {
    if jobId !in seen && |seen| >= MAX_JOURNAL_GENERATIONS then Err else Ok(seen + {jobId})
  }

  function DecodeBoundedHex(text: Option<string>): Result<seq<byte>> {
    if text.None? || |text.value| > 2 * MAX_WINNER_BLOCK_BYTES || |text.value| % 2 != 0 then Err
    else match HexDecode(text.value) case None => Err case Some(b) => Ok(b)
  }

  function PersistedWinner(
    check: BlockCheck, chain: Chain, shareId: Digest, jobId: string,
    hash: string, height: Option<u32>, text: Option<string>, parent: seq<byte>)
    : Result<PendingWinner>
  {
    if height.None? then Err else
    var block :- DecodeBoundedHex(text);
    if check(block, hash, height.value, chain) != Some(parent) then Err
    else Ok(PendingWinner(WinnerKey(shareId, chain), jobId, hash, height.value, block, false, false))
  }

  function PersistedWinners(check: BlockCheck, r: Record, shareId: Digest): Result<seq<PendingWinner>> {
    if r.parentHashLe.None? || ParseRawHash(r.parentHashLe.value).None? then Err else
    var parent := ParseRawHash(r.parentHashLe.value).value;
    var w :- if !Candidate(r.wcashCandidate) then Ok([])
             else if r.wcashBlockHash.None? || ParseRawHash(r.wcashBlockHash.value).None? then Err
             else
               var p :- PersistedWinner(check, Wcash, shareId, r.jobId, r.wcashBlockHash.value,
                                        r.wcashHeight, r.wcashBlock, parent);
               Ok([p]);
    var z :- if !Candidate(r.zcashCandidate) then Ok([])
             else
               var p :- PersistedWinner(check, Zcash, shareId, r.jobId, DisplayHash(parent),
                                        r.zcashHeight, r.zcashBlock, parent);
               Ok([p]);
    Ok(w + z)
  }

  function InsertPending(pending: map<WinnerKey, PendingWinner>, winners: seq<PendingWinner>)
    : Result<map<WinnerKey, PendingWinner>>
    decreases |winners|
  {
    if winners == [] then Ok(pending) else
    var w := winners[0];
    if w.key in pending then
      (if pending[w.key] == w then InsertPending(pending, winners[1..]) else Err)
    else if |pending| + 1 > MAX_PENDING_WINNERS then Err
    else InsertPending(pending[w.key := w], winners[1..])
  }

  /** An outbox record enters once; an exact copy is skipped before its winners are looked at. */
  function InsertOutbox(
    maxWinnerShares: nat, s: ReplayState, shareId: Digest, identity: Digest, winners: Result<seq<PendingWinner>>)
    : Result<ReplayState>
  {
    if shareId in s.identities then (if s.identities[shareId] == identity then Ok(s) else Err)
    else if |s.identities| + 1 > maxWinnerShares then Err
    else
      var ws :- winners;
      if ws == [] then Err else
      var pending :- InsertPending(s.pending, ws);
      Ok(s.(identities := s.identities[shareId := identity], pending := pending))
  }

  function ReplayOutbox(ctx: Context, s: ReplayState, jobId: seq<byte>, r: Record): Result<ReplayState> {
    var shareId :- RequiredShareId(r);
    var seen :- InsertSeen(s.seenJobIds, jobId);
    InsertOutbox(ctx.maxWinnerShares, s.(seenJobIds := seen), shareId, ExactRecordFingerprint(r),
                 PersistedWinners(ctx.check, r, shareId))
  }

  /** The flags of a pending winner after a status record; none when the winner is dropped. */
  function FlagsAfter(tag: Tag, chain: Chain, p: PendingWinner): Result<Option<(bool, bool)>> {
    match tag
    case WinnerObserved | WinnerConfirmed => if p.observedOnBestChain then Err else Ok(Some((true, false)))
    case WinnerOrphaned =>
      if !p.observedOnBestChain && !p.conflictingWitness then Err else Ok(Some((false, false)))
    case WinnerConflicting =>
      if chain != Wcash then Err else if p.conflictingWitness then Err else Ok(Some((false, true)))
    case WinnerMatured => if !p.observedOnBestChain || p.conflictingWitness then Err else Ok(None)
    case _ => Err
  }

  function ReplayStatus(pending: map<WinnerKey, PendingWinner>, r: Record)
    : Result<map<WinnerKey, PendingWinner>>
  {
    var shareId :- RequiredShareId(r);
    if ParseChain(r.chain).None? then Err else
    var chain := ParseChain(r.chain).value;
    var key := WinnerKey(shareId, chain);
    if key !in pending || r.blockHash.None? || r.height.None? then Err else
    var p := pending[key];
    if p.jobId != r.jobId || !EqIgnoreAsciiCase(p.blockHashDisplay, r.blockHash.value)
       || p.height != r.height.value then Err else
    var flags :- FlagsAfter(r.tag, chain, p);
    match flags
    case Some((o, c)) => Ok(pending[key := p.(observedOnBestChain := o, conflictingWitness := c)])
    case None => Ok(pending - {key})
  }

  function ReplayRecord(ctx: Context, s: ReplayState, r: Record): Result<ReplayState> {
    if r.version != JOURNAL_VERSION || ParseCanonicalId(r.jobId).None? then Err else
    var jobId := ParseCanonicalId(r.jobId).value;
    if r.tag.JobActivated? then
      if !ValidPersistedActivation(r) || jobId in s.seenJobIds then Err
      else
        var seen :- InsertSeen(s.seenJobIds, jobId);
        Ok(s.(seenJobIds := seen))
    else if r.tag.AcceptedShare? then
      var _ :- RequiredShareId(r);
      var seen :- InsertSeen(s.seenJobIds, jobId);
      Ok(s.(seenJobIds := seen))
    else if r.tag.WinnerOutbox? then ReplayOutbox(ctx, s, jobId, r)
    else if IsStatus(r.tag) then
      var pending :- ReplayStatus(s.pending, r);
      Ok(s.(pending := pending))
    else Err
  }

  function ReplayAll(ctx: Context, rs: seq<Record>): Result<ReplayState> {
    if rs == [] then Ok(EMPTY_REPLAY)
    else
      var before :- ReplayAll(ctx, rs[..|rs| - 1]);
      ReplayRecord(ctx, before, rs[|rs| - 1])
  }
}
