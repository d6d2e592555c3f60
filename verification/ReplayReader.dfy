/** The coordinator's replay loop as the program runs it, over maps updated in place. */
module ReplayReader {
  import opened Common
  import opened Framing
  import opened Hex
  import opened JournalRecord
  import opened Replay
  import opened JournalModel
  import opened JournalReader

  function ReplayStep(ctx: Context): Stepper<ReplayState> { (s: ReplayState, r: Record) => ReplayRecord(ctx, s, r) }

  lemma {:induction false} FoldIsReplay(ctx: Context, rs: seq<Record>)
    ensures FoldFrom(ReplayStep(ctx), EMPTY_REPLAY, rs) == ReplayAll(ctx, rs)
  {
    if rs == [] {
    } else {
      FoldIsReplay(ctx, rs[..|rs| - 1]);
    }
  }

  class Replayer {
    var seenJobIds: set<seq<byte>>
    var identities: map<Digest, Digest>
    var pendingWinners: map<WinnerKey, PendingWinner>
    var completeBytes: nat

    constructor ()
      ensures StateNow() == EMPTY_REPLAY && completeBytes == 0
    {
      seenJobIds, identities, pendingWinners, completeBytes := {}, map[], map[], 0;
    }

    function StateNow(): ReplayState
      reads this
    {
      ReplayState(seenJobIds, identities, pendingWinners)
    }

    method SeeJob(jobId: seq<byte>) returns (ok: bool)
      modifies `seenJobIds
      ensures ok <==> InsertSeen(old(seenJobIds), jobId).Ok?
      ensures ok ==> seenJobIds == InsertSeen(old(seenJobIds), jobId).value
    {
      if jobId !in seenJobIds && |seenJobIds| >= MAX_JOURNAL_GENERATIONS { return false; }
      seenJobIds := seenJobIds + {jobId};
      return true;
    }

    /** Puts the winners of a new outbox record into the pending map. */
    method InsertWinners(winners: seq<PendingWinner>) returns (ok: bool)
      modifies `pendingWinners
      ensures ok <==> InsertPending(old(pendingWinners), winners).Ok?
      ensures ok ==> pendingWinners == InsertPending(old(pendingWinners), winners).value
    {
      for i := 0 to |winners|
        invariant InsertPending(old(pendingWinners), winners) == InsertPending(pendingWinners, winners[i..])
      {
        var winner := winners[i];
        assert winners[i..][1..] == winners[i + 1..];
        if winner.key in pendingWinners {
          if pendingWinners[winner.key] != winner { return false; }
        } else {
          assert |pendingWinners[winner.key := winner]| == |pendingWinners| + 1 by {
            assert pendingWinners[winner.key := winner].Keys == pendingWinners.Keys + {winner.key};
          }
          pendingWinners := pendingWinners[winner.key := winner];
          if |pendingWinners| > MAX_PENDING_WINNERS { return false; }
        }
      }
      return true;
    }

    method ReplayWinner(ctx: Context, jobId: seq<byte>, r: Record) returns (ok: bool)
      modifies `seenJobIds, `identities, `pendingWinners
      ensures ok <==> ReplayOutbox(ctx, old(StateNow()), jobId, r).Ok?
      ensures ok ==> StateNow() == ReplayOutbox(ctx, old(StateNow()), jobId, r).value
    {
      var shareId := RequiredShareId(r);
      if shareId.Err? { return false; }
      ok := SeeJob(jobId);
      if !ok { return; }
      var identity := ExactRecordFingerprint(r);
      if shareId.value in identities { return identities[shareId.value] == identity; }
      assert |identities[shareId.value := identity]| == |identities| + 1 by {
        assert identities[shareId.value := identity].Keys == identities.Keys + {shareId.value};
      }
      identities := identities[shareId.value := identity];
      if |identities| > ctx.maxWinnerShares { return false; }
      var winners := PersistedWinners(ctx.check, r, shareId.value);
      if winners.Err? || winners.value == [] { return false; }
      ok := InsertWinners(winners.value);
    }

    method ReplayStatusRecord(r: Record) returns (ok: bool)
      modifies `pendingWinners
      ensures ok <==> ReplayStatus(old(pendingWinners), r).Ok?
      ensures ok ==> pendingWinners == ReplayStatus(old(pendingWinners), r).value
    {
      var shareId := RequiredShareId(r);
      if shareId.Err? || ParseChain(r.chain).None? { return false; }
      var chain := ParseChain(r.chain).value;
      var key := WinnerKey(shareId.value, chain);
      if key !in pendingWinners || r.blockHash.None? || r.height.None? { return false; }
      var pending := pendingWinners[key];
      if pending.jobId != r.jobId || !EqIgnoreAsciiCase(pending.blockHashDisplay, r.blockHash.value)
         || pending.height != r.height.value { return false; }
      match r.tag {
      case WinnerObserved | WinnerConfirmed =>
        if pending.observedOnBestChain { return false; }
        pendingWinners := pendingWinners[key := pending.(observedOnBestChain := true, conflictingWitness := false)];
      case WinnerOrphaned =>
        if !pending.observedOnBestChain && !pending.conflictingWitness { return false; }
        pendingWinners := pendingWinners[key := pending.(observedOnBestChain := false, conflictingWitness := false)];
      case WinnerConflicting =>
        if chain != Wcash || pending.conflictingWitness { return false; }
        pendingWinners := pendingWinners[key := pending.(observedOnBestChain := false, conflictingWitness := true)];
      case WinnerMatured =>
        if !pending.observedOnBestChain || pending.conflictingWitness { return false; }
        pendingWinners := pendingWinners - {key};
      case _ => return false;
      }
      return true;
    }

    method ReplayOne(ctx: Context, r: Record) returns (ok: bool)
      modifies `seenJobIds, `identities, `pendingWinners
      ensures ok <==> ReplayRecord(ctx, old(StateNow()), r).Ok?
      ensures ok ==> StateNow() == ReplayRecord(ctx, old(StateNow()), r).value
    {
      if r.version != JOURNAL_VERSION { return false; }
      var jobId := ParseCanonicalId(r.jobId);
      if jobId.None? { return false; }
      if r.tag.JobActivated? {
        if !ValidPersistedActivation(r) || jobId.value in seenJobIds { return false; }
        ok := SeeJob(jobId.value);
      } else if r.tag.AcceptedShare? {
        if RequiredShareId(r).Err? { return false; }
        ok := SeeJob(jobId.value);
      } else if r.tag.WinnerOutbox? {
        ok := ReplayWinner(ctx, jobId.value, r);
      } else if IsStatus(r.tag) {
        ok := ReplayStatusRecord(r);
      } else {
        return false;
      }
    }

    /** The replay loop.  `completeBytes` ends as the length of the terminated part of the stream. */
    method ReplayStream(decode: Decoder, ctx: Context, reader: ByteReader) returns (ok: bool)
      requires reader.Valid() && completeBytes == 0
      modifies this, reader
      ensures ok <==> FoldStream(decode, ReplayStep(ctx), old(StateNow()), old(reader.Rest())).Ok?
      ensures ok ==> Ok(StateNow()) == FoldStream(decode, ReplayStep(ctx), old(StateNow()), old(reader.Rest()))
      ensures ok ==> completeBytes == |Join(Split(old(reader.Rest())).lines)|
    {
      ghost var start := StateNow();
      ghost var stream := reader.Rest();
      ReadFoldIsFoldStream(decode, ReplayStep(ctx), start, stream);
      while true
        invariant reader.Valid()
        invariant ReadFold(decode, ReplayStep(ctx), start, stream)
               == ReadFold(decode, ReplayStep(ctx), StateNow(), reader.Rest())
        invariant completeBytes + |Join(Split(reader.Rest()).lines)| == |Join(Split(stream).lines)|
        decreases |reader.Rest()|
      {
        ghost var rest := reader.Rest();
        var line := ReadBoundedJournalLine(reader);
        if line.Err? { return false; }
        if line.value.None? || !line.value.value.terminated { return true; }
        TerminatedBytes(rest);
        completeBytes := completeBytes + line.value.value.consumed;
        var r := decode(line.value.value.text);
        if r.None? { return false; }
        var replayed := ReplayOne(ctx, r.value);
        if !replayed { return false; }
      }
    }
  }
}
