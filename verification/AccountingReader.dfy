/** The accounting reader as the program runs it: maps and counters updated in place, line by line. */
module AccountingReader {
  import opened Common
  import opened Framing
  import opened Hex
  import opened JournalRecord
  import opened Accounting
  import opened JournalModel
  import opened JournalReader

  function AccountStep(ctx: Context): Stepper<Ledger> { (l: Ledger, r: Record) => AccountRecord(ctx, l, r) }

  lemma {:induction false} FoldIsAccounting(ctx: Context, l: Ledger, rs: seq<Record>)
    ensures FoldFrom(AccountStep(ctx), l, rs) == AccountFrom(ctx, l, rs)
  {
    if rs == [] {
    } else {
      FoldIsAccounting(ctx, l, rs[..|rs| - 1]);
    }
  }

  class Accountant {
    var accepted: map<Digest, ImmutableShare>
    var pendingWinners: map<WinnerKey, PendingStatus>
    var usedJobs: set<seq<byte>>
    var acceptedShares: nat
    var sharesByAuthentication: map<string, nat>
    var workers: map<string, WorkerCounts>

    constructor ()
      ensures LedgerNow() == EMPTY_LEDGER
    {
      accepted, pendingWinners, usedJobs := map[], map[], {};
      acceptedShares, sharesByAuthentication, workers := 0, map[], map[];
    }

    function SnapshotNow(): Snapshot
      reads this
    {
      Snapshot(acceptedShares, sharesByAuthentication, workers)
    }

    function LedgerNow(): Ledger
      reads this
    {
      Ledger(accepted, pendingWinners, usedJobs, SnapshotNow())
    }

    /** Counts one share; after an overflow the reader is abandoned. */
    method CountShare(share: ImmutableShare) returns (ok: bool)
      modifies `acceptedShares, `sharesByAuthentication, `workers
      ensures ok <==> ApplyShare(old(SnapshotNow()), share).Ok?
      ensures ok ==> SnapshotNow() == ApplyShare(old(SnapshotNow()), share).value
    {
      if acceptedShares + 1 > U64_MAX { return false; }
      acceptedShares := acceptedShares + 1;
      var bucket := IncrementBucket(sharesByAuthentication, share.authentication);
      if bucket.Err? { return false; }
      sharesByAuthentication := bucket.value;
      var worker := if share.worker in workers then workers[share.worker] else EMPTY_WORKER;
      if worker.acceptedShares + 1 > U64_MAX { return false; }
      bucket := IncrementBucket(worker.byAuthentication, share.authentication);
      if bucket.Err? { return false; }
      ghost var entry := worker;
      worker := worker.(acceptedShares := worker.acceptedShares + 1, byAuthentication := bucket.value);
      if share.wcashCandidate {
        if worker.wcashWinners + 1 > U64_MAX { return false; }
        worker := worker.(wcashWinners := worker.wcashWinners + 1);
      }
      if share.zcashCandidate {
        if worker.zcashWinners + 1 > U64_MAX { return false; }
        worker := worker.(zcashWinners := worker.zcashWinners + 1);
      }
      bucket := IncrementBucket(worker.byTarget, share.shareTarget);
      if bucket.Err? { return false; }
      worker := worker.(byTarget := bucket.value);
      assert CountWorker(entry, share) == Ok(worker);
      workers := workers[share.worker := worker];
      return true;
    }

    /** Moves the flags of one pending winner, or drops it. */
    method UpdateWinner(r: Record) returns (ok: bool)
      modifies `pendingWinners
      ensures ok <==> ApplyWinnerStatus(old(pendingWinners), r).Ok?
      ensures pendingWinners == if ok then ApplyWinnerStatus(old(pendingWinners), r).value else old(pendingWinners)
    {
      if !ValidStatusFields(r) { return false; }
      var chain := ParseChain(r.chain).value;
      var key := WinnerKey(r.shareId.value.digest, chain);
      if key !in pendingWinners { return false; }
      var pending := pendingWinners[key];
      if pending.jobId != r.jobId || pending.blockHash != r.blockHash.value || pending.height != r.height.value {
        return false;
      }
      match r.tag {
      case WinnerObserved | WinnerConfirmed =>
        if pending.observed { return false; }
        pendingWinners := pendingWinners[key := pending.(observed := true, conflicting := false)];
      case WinnerOrphaned =>
        if !pending.observed && !pending.conflicting { return false; }
        pendingWinners := pendingWinners[key := pending.(observed := false, conflicting := false)];
      case WinnerConflicting =>
        if chain != Wcash || pending.conflicting { return false; }
        pendingWinners := pendingWinners[key := pending.(observed := false, conflicting := true)];
      case WinnerMatured =>
        if !pending.observed || pending.conflicting { return false; }
        pendingWinners := pendingWinners - {key};
      case _ => return false;
      }
      return true;
    }

    /** Inserts the winners of a new share one by one. */
    method InsertAll(entries: seq<(WinnerKey, PendingStatus)>) returns (ok: bool)
      modifies `pendingWinners
      ensures ok <==> InsertWinners(old(pendingWinners), entries).Ok?
      ensures ok ==> pendingWinners == InsertWinners(old(pendingWinners), entries).value
    {
      for i := 0 to |entries|
        invariant InsertWinners(old(pendingWinners), entries) == InsertWinners(pendingWinners, entries[i..])
      {
        if entries[i].0 in pendingWinners { return false; }
        assert entries[i..][1..] == entries[i + 1..];
        pendingWinners := pendingWinners[entries[i].0 := entries[i].1];
      }
      return true;
    }

    /** Enters a checked share: a copy is skipped, a conflicting definition fails. */
    method EnterShare(maxShares: nat, jobId: seq<byte>, c: Checked) returns (ok: bool)
      modifies this
      ensures ok <==> AccountChecked(maxShares, old(LedgerNow()), jobId, c).Ok?
      ensures ok ==> LedgerNow() == AccountChecked(maxShares, old(LedgerNow()), jobId, c).value
    {
      if !GenerationCapacity(|usedJobs|, jobId in usedJobs) { return false; }
      usedJobs := usedJobs + {jobId};
      if c.id in accepted { return accepted[c.id] == c.share; }
      if |accepted| >= maxShares { return false; }
      ok := CountShare(c.share);
      if !ok { return; }
      accepted := accepted[c.id := c.share];
      ok := InsertAll(c.winners.entries);
    }

    method Account(ctx: Context, r: Record) returns (ok: bool)
      modifies this
      ensures ok <==> AccountRecord(ctx, old(LedgerNow()), r).Ok?
      ensures ok ==> LedgerNow() == AccountRecord(ctx, old(LedgerNow()), r).value
    {
      if r.version != JOURNAL_VERSION { return false; }
      var jobId := ValidateCanonical32(r.jobId);
      if jobId.None? { return false; }
      if r.tag.JobActivated? {
        if !ValidJobActivation(r) || jobId.value in usedJobs || !GenerationCapacity(|usedJobs|, false) { return false; }
        usedJobs := usedJobs + {jobId.value};
        return true;
      } else if IsShare(r.tag) {
        var c := CheckedShare(ctx, r);
        if c.Err? { return false; }
        ok := EnterShare(ctx.maxShares, jobId.value, c.value);
      } else if IsStatus(r.tag) {
        ok := UpdateWinner(r);
      } else {
        return false;
      }
    }

    /** The reading loop, from the current ledger to the end of the stream. */
    method ReadAll(decode: Decoder, ctx: Context, reader: ByteReader) returns (ok: bool)
      requires reader.Valid()
      modifies this, reader
      ensures ok <==> FoldStream(decode, AccountStep(ctx), old(LedgerNow()), old(reader.Rest())).Ok?
      ensures ok ==> Ok(LedgerNow()) == FoldStream(decode, AccountStep(ctx), old(LedgerNow()), old(reader.Rest()))
    {
      ghost var start := LedgerNow();
      ghost var stream := reader.Rest();
      ReadFoldIsFoldStream(decode, AccountStep(ctx), start, stream);
      while true
        invariant reader.Valid()
        invariant ReadFold(decode, AccountStep(ctx), start, stream)
               == ReadFold(decode, AccountStep(ctx), LedgerNow(), reader.Rest())
        decreases |reader.Rest()|
      {
        var line := ReadBoundedLine(reader);
        if line.Err? { return false; }
        if line.value.None? || !line.value.value.1 { return true; }
        var r := decode(line.value.value.0);
        if r.None? { return false; }
        var accounted := Account(ctx, r.value);
        if !accounted { return false; }
      }
    }
  }

  /** The payout snapshot of a journal, however its bytes arrive. */
  method ReadAccountingSnapshot(codec: Codec, ctx: Context, chunks: seq<seq<byte>>) returns (r: Result<Snapshot>)
    requires forall i :: 0 <= i < |chunks| ==> chunks[i] != []
    ensures r.Ok? <==> && Readable(Flatten(chunks))
                       && DecodeAll(codec.decode, Split(Flatten(chunks)).lines).Some?
                       && AccountAll(ctx, DecodeAll(codec.decode, Split(Flatten(chunks)).lines).value).Ok?
    ensures r.Ok? ==>
              r.value == AccountAll(ctx, DecodeAll(codec.decode, Split(Flatten(chunks)).lines).value).value.snapshot
  {
    var reader := new ByteReader(chunks);
    var accountant := new Accountant();
    var ok := accountant.ReadAll(codec.decode, ctx, reader);
    ghost var lines := DecodeAll(codec.decode, Split(Flatten(chunks)).lines);
    if lines.Some? { FoldIsAccounting(ctx, EMPTY_LEDGER, lines.value); }
    return if ok then Ok(accountant.SnapshotNow()) else Err;
  }
}
