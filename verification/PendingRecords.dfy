/**
 The jobs and pending winners of an accepted journal in terms of its records: a winner is pending from the
 share that won until a matured record names it, and its flags are those of the last record that names it.
 */
module PendingRecords {
  import opened Common
  import opened Hex
  import opened JournalRecord
  import opened Accounting
  import opened Agreement
  import opened RecordCounts

  /* ----- what the records say about one winner ----- */

  /** The share record claims a block for this winner. */
  predicate Wins(r: Record, k: WinnerKey) {
    && r.tag.WinnerOutbox? && r.shareId == Some(Canonical(k.shareId))
    && (if k.chain == Wcash then r.wcashCandidate else r.zcashCandidate) == Some(true)
  }

  /** The status record names this winner. */
  predicate Names(r: Record, k: WinnerKey) {
    && IsStatus(r.tag) && r.shareId == Some(Canonical(k.shareId))
    && r.chain == Some(if k.chain == Wcash then "wcash" else "zcash")
  }

  predicate Won(rs: seq<Record>, k: WinnerKey) { exists i :: 0 <= i < |rs| && Wins(rs[i], k) }

  /** The last status that the journal records for a winner. */
  function LastStatus(rs: seq<Record>, k: WinnerKey): Option<Tag> {
    if rs == [] then None
    else if Names(rs[|rs| - 1], k) then Some(rs[|rs| - 1].tag)
    else LastStatus(rs[..|rs| - 1], k)
  }

  predicate Seen(status: Option<Tag>) { status == Some(WinnerObserved) || status == Some(WinnerConfirmed) }

  /** The winner's own data, as its share record has it. */
  predicate DataOf(r: Record, k: WinnerKey, p: PendingStatus) {
    && p.jobId == r.jobId
    && (k.chain == Wcash ==> r.wcashBlockHash == Some(p.blockHash) && r.wcashHeight == Some(p.height))
    && (k.chain == Zcash ==>
        && r.parentHashLe.Some? && ValidateCanonical32(r.parentHashLe.value).Some?
        && p.blockHash == DisplayHash(ValidateCanonical32(r.parentHashLe.value).value)
        && r.zcashHeight == Some(p.height))
  }

  /** Some share record of the journal has this winner's data. */
  predicate Backed(rs: seq<Record>, k: WinnerKey, p: PendingStatus) {
    exists i :: 0 <= i < |rs| && Wins(rs[i], k) && DataOf(rs[i], k, p)
  }

  predicate WinnerMeans(rs: seq<Record>, pending: map<WinnerKey, PendingStatus>, k: WinnerKey) {
    && (k in pending <==> Won(rs, k) && LastStatus(rs, k) != Some(WinnerMatured))
    && (k in pending ==>
        && (pending[k].observed <==> Seen(LastStatus(rs, k)))
        && (pending[k].conflicting <==> LastStatus(rs, k) == Some(WinnerConflicting))
        && Backed(rs, k, pending[k]))
    && (LastStatus(rs, k).Some? ==> Won(rs, k))
  }

  ghost predicate PendingMeans(rs: seq<Record>, pending: map<WinnerKey, PendingStatus>) {
    forall k :: WinnerMeans(rs, pending, k)
  }

  /* ----- one more record ----- */

  lemma {:induction false} WonSnoc(rs: seq<Record>, r: Record, k: WinnerKey)
    ensures Won(rs + [r], k) <==> Won(rs, k) || Wins(r, k)
  {
    var more := rs + [r];
    if Won(rs, k) {
      var i :| 0 <= i < |rs| && Wins(rs[i], k);
      assert more[i] == rs[i];
    }
    if Wins(r, k) { assert more[|rs|] == r; }
    if Won(more, k) {
      var i :| 0 <= i < |more| && Wins(more[i], k);
      if i < |rs| { assert rs[i] == more[i]; }
    }
  }

  lemma {:induction false} LastSnoc(rs: seq<Record>, r: Record, k: WinnerKey)
    ensures LastStatus(rs + [r], k) == if Names(r, k) then Some(r.tag) else LastStatus(rs, k)
  {
    assert (rs + [r])[..|rs|] == rs;
  }

  /** The winner entries of a share are exactly those that its flags claim, with its own data. */
  lemma {:induction false} EntriesAre(check: BlockCheck, r: Record, id: Digest)
    requires ValidateWinnerBlocks(check, r, id).Ok? && r.shareId == Some(Canonical(id)) && IsShare(r.tag)
    ensures var es := ValidateWinnerBlocks(check, r, id).value.entries;
            && (forall i :: 0 <= i < |es| ==>
                Wins(r, es[i].0) && DataOf(r, es[i].0, es[i].1) && !es[i].1.observed && !es[i].1.conflicting)
            && (forall k :: Wins(r, k) ==> exists i :: 0 <= i < |es| && es[i].0 == k)
  {
    if r.tag.WinnerOutbox? {
      var parent := ValidateCanonical32(r.parentHashLe.value).value;
      var w, z := WcashPart(check, r, id, parent).value.0, ZcashPart(check, r, id, parent).value.0;
      var es := ValidateWinnerBlocks(check, r, id).value.entries;
      assert es == w + z;
      forall k | Wins(r, k) ensures exists i :: 0 <= i < |es| && es[i].0 == k {
        assert k == WinnerKey(id, k.chain);
        if k.chain == Wcash { assert es[0] == w[0]; } else { assert es[|w|] == z[0]; }
      }
    }
  }

  /** Inserting winners adds exactly their entries. */
  lemma {:induction false} InsertIs(pending: map<WinnerKey, PendingStatus>, es: seq<(WinnerKey, PendingStatus)>)
    requires InsertWinners(pending, es).Ok?
    ensures var more := InsertWinners(pending, es).value;
            && (forall k :: k in more <==> k in pending || exists i :: 0 <= i < |es| && es[i].0 == k)
            && (forall k :: k in pending ==> more[k] == pending[k])
            && (forall i :: 0 <= i < |es| ==> more[es[i].0] == es[i].1)
    decreases |es|
  {
    if es == [] {
    } else {
      var next := pending[es[0].0 := es[0].1];
      InsertIs(next, es[1..]);
      var more := InsertWinners(pending, es).value;
      assert es[0].0 in next;
      forall i | 0 <= i < |es| ensures more[es[i].0] == es[i].1 {
        if i > 0 { assert es[1..][i - 1] == es[i]; }
      }
      forall k ensures k in more <==> k in pending || exists i :: 0 <= i < |es| && es[i].0 == k {
        if k in more && k !in pending && k != es[0].0 {
          var i :| 0 <= i < |es[1..]| && es[1..][i].0 == k;
          assert es[i + 1].0 == k;
        }
        if exists i :: 0 <= i < |es| && es[i].0 == k {
          var i :| 0 <= i < |es| && es[i].0 == k;
          if i > 0 { assert es[1..][i - 1].0 == k; }
        }
      }
    }
  }

  lemma {:induction false} BackedStays(rs: seq<Record>, r: Record, k: WinnerKey, p: PendingStatus, q: PendingStatus)
    requires Backed(rs, k, p) && q == p.(observed := q.observed, conflicting := q.conflicting)
    ensures Backed(rs + [r], k, q)
  {
    var i :| 0 <= i < |rs| && Wins(rs[i], k) && DataOf(rs[i], k, p);
    assert (rs + [r])[i] == rs[i];
  }

  lemma {:induction false} BackedByLast(rs: seq<Record>, r: Record, k: WinnerKey, p: PendingStatus)
    requires Wins(r, k) && DataOf(r, k, p)
    ensures Backed(rs + [r], k, p)
  {
    assert (rs + [r])[|rs|] == r;
  }

  /** A winner that a new share claims: no record before it speaks of it. */
  lemma {:induction false} NewWinnerMeans(
    rs: seq<Record>, r: Record, pending: map<WinnerKey, PendingStatus>, more: map<WinnerKey, PendingStatus>,
    k: WinnerKey)
    requires WinnerMeans(rs, pending, k) && !Won(rs, k) && Wins(r, k)
    requires k in more && DataOf(r, k, more[k]) && !more[k].observed && !more[k].conflicting
    ensures WinnerMeans(rs + [r], more, k)
  {
    WonSnoc(rs, r, k);
    LastSnoc(rs, r, k);
    BackedByLast(rs, r, k, more[k]);
  }

  /** A winner that the record does not speak of, or only repeats. */
  lemma {:induction false} OldWinnerMeans(
    rs: seq<Record>, r: Record, pending: map<WinnerKey, PendingStatus>, more: map<WinnerKey, PendingStatus>,
    k: WinnerKey)
    requires WinnerMeans(rs, pending, k) && !Names(r, k) && (Wins(r, k) ==> Won(rs, k))
    requires (k in more <==> k in pending) && (k in pending ==> more[k] == pending[k])
    ensures WinnerMeans(rs + [r], more, k)
  {
    WonSnoc(rs, r, k);
    LastSnoc(rs, r, k);
    if k in pending { BackedStays(rs, r, k, pending[k], more[k]); }
  }

  lemma {:induction false} NewShareMeans(
    rs: seq<Record>, r: Record, pending: map<WinnerKey, PendingStatus>, es: seq<(WinnerKey, PendingStatus)>)
    requires PendingMeans(rs, pending) && InsertWinners(pending, es).Ok? && IsShare(r.tag)
    requires forall i :: 0 <= i < |es| ==>
               Wins(r, es[i].0) && DataOf(r, es[i].0, es[i].1) && !es[i].1.observed && !es[i].1.conflicting
    requires forall k :: Wins(r, k) ==> !Won(rs, k) && exists i :: 0 <= i < |es| && es[i].0 == k
    ensures PendingMeans(rs + [r], InsertWinners(pending, es).value)
  {
    var more := InsertWinners(pending, es).value;
    InsertIs(pending, es);
    forall k ensures WinnerMeans(rs + [r], more, k) {
      assert WinnerMeans(rs, pending, k);
      if Wins(r, k) {
        var i :| 0 <= i < |es| && es[i].0 == k;
        NewWinnerMeans(rs, r, pending, more, k);
      } else {
        OldWinnerMeans(rs, r, pending, more, k);
      }
    }
  }

  /** A record that speaks of no winner, or repeats a share, changes nothing. */
  lemma {:induction false} OtherMeans(rs: seq<Record>, r: Record, pending: map<WinnerKey, PendingStatus>)
    requires PendingMeans(rs, pending) && !IsStatus(r.tag)
    requires forall k :: Wins(r, k) ==> Won(rs, k)
    ensures PendingMeans(rs + [r], pending)
  {
    forall k ensures WinnerMeans(rs + [r], pending, k) {
      assert WinnerMeans(rs, pending, k);
      OldWinnerMeans(rs, r, pending, pending, k);
    }
  }

  /** Only the named winner moves, as the tag says. */
  ghost predicate MovedBy(
    pending: map<WinnerKey, PendingStatus>, after: map<WinnerKey, PendingStatus>, key: WinnerKey, tag: Tag)
  {
    && key in pending && (key in after <==> tag != WinnerMatured)
    && (forall k :: k != key ==> (k in after <==> k in pending) && (k in pending ==> after[k] == pending[k]))
    && (key in after ==>
        && after[key] == pending[key].(observed := after[key].observed, conflicting := after[key].conflicting)
        && (after[key].observed <==> Seen(Some(tag)))
        && (after[key].conflicting <==> tag == WinnerConflicting))
  }

  /** An accepted status record names one winner and moves it. */
  lemma {:induction false} StatusSays(pending: map<WinnerKey, PendingStatus>, r: Record) returns (key: WinnerKey)
    requires ApplyWinnerStatus(pending, r).Ok? && IsStatus(r.tag)
    ensures MovedBy(pending, ApplyWinnerStatus(pending, r).value, key, r.tag)
    ensures forall k :: Names(r, k) <==> k == key
    ensures forall k :: !Wins(r, k)
  {
    key := WinnerKey(r.shareId.value.digest, ParseChain(r.chain).value);
  }

  lemma {:induction false} NamedWinnerMeans(
    rs: seq<Record>, r: Record, pending: map<WinnerKey, PendingStatus>, after: map<WinnerKey, PendingStatus>,
    key: WinnerKey)
    requires WinnerMeans(rs, pending, key) && MovedBy(pending, after, key, r.tag) && Names(r, key) && !Wins(r, key)
    ensures WinnerMeans(rs + [r], after, key)
  {
    WonSnoc(rs, r, key);
    LastSnoc(rs, r, key);
    if key in after { BackedStays(rs, r, key, pending[key], after[key]); }
  }

  lemma {:induction false} StatusMeans(
    rs: seq<Record>, r: Record, pending: map<WinnerKey, PendingStatus>, after: map<WinnerKey, PendingStatus>,
    key: WinnerKey)
    requires PendingMeans(rs, pending) && MovedBy(pending, after, key, r.tag)
    requires forall k :: (Names(r, k) <==> k == key) && !Wins(r, k)
    ensures PendingMeans(rs + [r], after)
  {
    forall k ensures WinnerMeans(rs + [r], after, k) {
      assert WinnerMeans(rs, pending, k);
      if k == key {
        NamedWinnerMeans(rs, r, pending, after, key);
      } else {
        OldWinnerMeans(rs, r, pending, after, k);
      }
    }
  }

  /* ----- whole journals ----- */

  lemma {:induction false} CopyWon(rs: seq<Record>, r: Record)
    requires r in rs
    ensures forall k :: Wins(r, k) ==> Won(rs, k)
  {
  }

  /** A share that is not accepted yet has won nothing before. */
  lemma {:induction false} NewShareIsNews(ctx: Context, rs: seq<Record>, r: Record)
    requires AccountAll(ctx, rs).Ok? && CheckedShare(ctx, r).Ok?
    requires CheckedShare(ctx, r).value.id !in AccountAll(ctx, rs).value.accepted
    ensures forall k :: Wins(r, k) ==> !Won(rs, k)
  {
    LedgerRemembers(ctx, rs);
    RecordsOfAll(rs);
    CheckedReads(ctx, r);
    forall k | Wins(r, k) ensures !Won(rs, k) {
      forall i | 0 <= i < |rs| ensures !Wins(rs[i], k) {
        if Wins(rs[i], k) { CheckedReads(ctx, rs[i]); }
      }
    }
  }

  lemma {:induction false} KnownShareIsCopy(ctx: Context, rs: seq<Record>, r: Record)
    requires AccountAll(ctx, rs).Ok? && IsShare(r.tag) && AccountRecord(ctx, AccountAll(ctx, rs).value, r).Ok?
    requires CheckedShare(ctx, r).value.id in AccountAll(ctx, rs).value.accepted
    ensures r in rs
  {
    var l, id := AccountAll(ctx, rs).value, CheckedShare(ctx, r).value.id;
    LedgerRemembers(ctx, rs);
    RecordsOfAll(rs);
    assert Behind(CheckerOf(ctx), l, id, OriginOf(ctx, rs)[id]);
    DuplicateIsExact(ctx, OriginOf(ctx, rs)[id], r);
  }

  /** What an accepted share does to the pending winners. */
  lemma {:induction false} SharePending(ctx: Context, l: Ledger, r: Record)
    requires IsShare(r.tag) && AccountRecord(ctx, l, r).Ok?
    ensures CheckedShare(ctx, r).Ok? && ValidateWinnerBlocks(ctx.check, r, CheckedShare(ctx, r).value.id).Ok?
    ensures var c, after := CheckedShare(ctx, r).value, AccountRecord(ctx, l, r).value.pending;
            && c.winners == ValidateWinnerBlocks(ctx.check, r, c.id).value
            && (c.id in l.accepted ==> after == l.pending)
            && (c.id !in l.accepted ==> InsertWinners(l.pending, c.winners.entries) == Ok(after))
  {
  }

  lemma {:induction false} ShareMeans(ctx: Context, rs: seq<Record>, r: Record)
    requires AccountAll(ctx, rs).Ok? && PendingMeans(rs, AccountAll(ctx, rs).value.pending)
    requires IsShare(r.tag) && AccountRecord(ctx, AccountAll(ctx, rs).value, r).Ok?
    ensures PendingMeans(rs + [r], AccountRecord(ctx, AccountAll(ctx, rs).value, r).value.pending)
  {
    var l := AccountAll(ctx, rs).value;
    SharePending(ctx, l, r);
    var c := CheckedShare(ctx, r).value;
    if c.id in l.accepted {
      KnownShareIsCopy(ctx, rs, r);
      CopyWon(rs, r);
      OtherMeans(rs, r, l.pending);
    } else {
      CheckedReads(ctx, r);
      EntriesAre(ctx.check, r, c.id);
      NewShareIsNews(ctx, rs, r);
      NewShareMeans(rs, r, l.pending, c.winners.entries);
    }
  }

  lemma {:induction false} RecordMeans(ctx: Context, rs: seq<Record>, r: Record)
    requires AccountAll(ctx, rs).Ok? && PendingMeans(rs, AccountAll(ctx, rs).value.pending)
    requires AccountRecord(ctx, AccountAll(ctx, rs).value, r).Ok?
    ensures PendingMeans(rs + [r], AccountRecord(ctx, AccountAll(ctx, rs).value, r).value.pending)
  {
    var pending := AccountAll(ctx, rs).value.pending;
    if IsShare(r.tag) {
      ShareMeans(ctx, rs, r);
    } else if IsStatus(r.tag) {
      var key := StatusSays(pending, r);
      StatusMeans(rs, r, pending, ApplyWinnerStatus(pending, r).value, key);
    } else {
      OtherMeans(rs, r, pending);
    }
  }

  /** Reading one more record, with the rest of the reading kept out of sight. */
  lemma {:induction false} ReadsOneMore(ctx: Context, rs: seq<Record>)
    requires rs != [] && AccountAll(ctx, rs).Ok?
    ensures var n := |rs| - 1;
            && AccountAll(ctx, rs[..n]).Ok? && rs == rs[..n] + [rs[n]]
            && AccountAll(ctx, rs) == AccountRecord(ctx, AccountAll(ctx, rs[..n]).value, rs[n])
  {
  }

  /**
   Pending winners in terms of the records.  In every accepted journal a winner is pending if and only if a
   share record claims its block and the last record that names it does not mature it; it is observed or
   quarantined as that last record says; and its job, hash and height are those of the share record.
   */
  lemma {:induction false} PendingSpeaksForRecords(ctx: Context, rs: seq<Record>)
    requires AccountAll(ctx, rs).Ok?
    ensures PendingMeans(rs, AccountAll(ctx, rs).value.pending)
  {
    if rs == [] {
    } else {
      ReadsOneMore(ctx, rs);
      PendingSpeaksForRecords(ctx, rs[..|rs| - 1]);
      RecordMeans(ctx, rs[..|rs| - 1], rs[|rs| - 1]);
    }
  }

  /* ----- jobs ----- */

  /** The jobs that activations and shares of the journal name. */
  function JobsOf(rs: seq<Record>): set<seq<byte>> {
    set r | r in rs && UsesJob(r) && ValidateCanonical32(r.jobId).Some? :: ValidateCanonical32(r.jobId).value
  }

  lemma {:induction false} JobsSnoc(rs: seq<Record>, r: Record)
    ensures JobsOf(rs + [r]) == JobsOf(rs) + if UsesJob(r) && ValidateCanonical32(r.jobId).Some?
                                             then {ValidateCanonical32(r.jobId).value} else {}
  {
    assert forall x :: x in rs + [r] <==> x in rs || x == r;
  }

  lemma {:induction false} CheckedUsesJob(maxShares: nat, l: Ledger, jobId: seq<byte>, c: Checked)
    requires AccountChecked(maxShares, l, jobId, c).Ok?
    ensures AccountChecked(maxShares, l, jobId, c).value.usedJobs == l.usedJobs + {jobId}
  {
  }

  lemma {:induction false} UsedJobsAre(ctx: Context, l: Ledger, r: Record)
    requires AccountRecord(ctx, l, r).Ok?
    ensures AccountRecord(ctx, l, r).value.usedJobs
         == l.usedJobs + if UsesJob(r) then {ValidateCanonical32(r.jobId).value} else {}
    ensures ValidateCanonical32(r.jobId).Some?
  {
    if IsShare(r.tag) {
      CheckedUsesJob(ctx.maxShares, l, ValidateCanonical32(r.jobId).value, CheckedShare(ctx, r).value);
    }
  }

  /** The used jobs of every accepted journal are exactly those that its activations and shares name. */
  lemma {:induction false} UsedJobsSpeakForRecords(ctx: Context, rs: seq<Record>)
    requires AccountAll(ctx, rs).Ok?
    ensures AccountAll(ctx, rs).value.usedJobs == JobsOf(rs)
  {
    if rs == [] {
    } else {
      var n := |rs| - 1;
      ReadsOneMore(ctx, rs);
      UsedJobsSpeakForRecords(ctx, rs[..n]);
      UsedJobsAre(ctx, AccountAll(ctx, rs[..n]).value, rs[n]);
      JobsSnoc(rs[..n], rs[n]);
    }
  }

  lemma {:induction false} CanonicalInjective(a: string, b: string)
    requires ValidateCanonical32(a).Some? && ValidateCanonical32(a) == ValidateCanonical32(b)
    ensures a == b
  {
  }

  predicate NamedIn(log: seq<Record>, jobId: string) { exists r :: r in log && UsesJob(r) && r.jobId == jobId }

  lemma {:induction false} NamedIsJob(log: seq<Record>, jobId: string)
    requires ValidateCanonical32(jobId).Some?
    requires forall r :: r in log && UsesJob(r) ==> ValidateCanonical32(r.jobId).Some?
    ensures ValidateCanonical32(jobId).value in JobsOf(log) <==> NamedIn(log, jobId)
  {
    if ValidateCanonical32(jobId).value in JobsOf(log) {
      var r :| r in log && UsesJob(r) && ValidateCanonical32(r.jobId).Some?
               && ValidateCanonical32(r.jobId).value == ValidateCanonical32(jobId).value;
      CanonicalInjective(r.jobId, jobId);
    }
  }

  /** In an accepted journal every record that names a job names it canonically. */
  lemma {:induction false} JobsAreCanonical(ctx: Context, rs: seq<Record>)
    requires AccountAll(ctx, rs).Ok?
    ensures forall r :: r in rs ==> ValidateCanonical32(r.jobId).Some?
  {
    if rs == [] {
    } else {
      var n := |rs| - 1;
      ReadsOneMore(ctx, rs);
      JobsAreCanonical(ctx, rs[..n]);
      UsedJobsAre(ctx, AccountAll(ctx, rs[..n]).value, rs[n]);
    }
  }
}
