/**
 The journals that accounting accepts, as a grammar over records: exactly which record may come next, stated
 by the records before it and not by the interpreter's state.
 */
module Acceptance {
  import opened Common
  import opened Hex
  import opened JournalRecord
  import opened Accounting
  import opened Agreement
  import opened Conservation
  import opened RecordCounts
  import opened PendingRecords
  import opened LiveJournal
  import opened RecordForms

  /* ----- activations ----- */

  /** A job is named before, or there is room for one more. */
  ghost predicate JobFits(rs: seq<Record>, jobId: string) { NamedIn(rs, jobId) || |JobsOf(rs)| < 1_000_000 }

  ghost predicate NextActivation(rs: seq<Record>, r: Record) {
    (exists job, now :: IsActivation(r, job, now)) && !NamedIn(rs, r.jobId) && |JobsOf(rs)| < 1_000_000
  }

  lemma {:induction false} JobIsUsed(ctx: Context, rs: seq<Record>, jobId: string)
    requires AccountAll(ctx, rs).Ok? && ValidateCanonical32(jobId).Some?
    ensures AccountAll(ctx, rs).value.usedJobs == JobsOf(rs)
    ensures ValidateCanonical32(jobId).value in JobsOf(rs) <==> NamedIn(rs, jobId)
  {
    UsedJobsSpeakForRecords(ctx, rs);
    JobsAreCanonical(ctx, rs);
    NamedIsJob(rs, jobId);
  }

  lemma {:induction false} ActivationIff(ctx: Context, rs: seq<Record>, r: Record)
    requires AccountAll(ctx, rs).Ok? && r.tag.JobActivated?
    ensures AccountRecord(ctx, AccountAll(ctx, rs).value, r).Ok? <==> NextActivation(rs, r)
  {
    ActivationForm(r);
    if ValidateCanonical32(r.jobId).Some? { JobIsUsed(ctx, rs, r.jobId); }
  }

  /* ----- shares ----- */

  /** A copy of a share, or one whose identifier is new, while shares and jobs fit. */
  ghost predicate NextShare(ctx: Context, rs: seq<Record>, r: Record) {
    && IsShare(r.tag) && r.version == 2 && ValidateCanonical32(r.jobId).Some? && CheckedShare(ctx, r).Ok?
    && (r in rs || (&& HasId(r) && r.shareId.value.digest !in Ids(rs, Anything())
                    && |Ids(rs, Anything())| < ctx.maxShares && JobFits(rs, r.jobId)))
  }

  lemma {:induction false} AcceptedAreIds(ctx: Context, rs: seq<Record>)
    requires AccountAll(ctx, rs).Ok?
    ensures AccountAll(ctx, rs).value.accepted.Keys == Ids(rs, Anything())
    ensures |AccountAll(ctx, rs).value.accepted| == |Ids(rs, Anything())|
  {
    var accepted := AccountAll(ctx, rs).value.accepted;
    SameFields(ctx, rs, "", "");
    MatchingIsIds(ctx, rs, Any(), Anything());
    assert Matching(accepted, Any()) == accepted.Keys;
    assert |accepted| == |accepted.Keys|;
  }

  /** A new share of a job that fits enters the ledger. */
  lemma {:induction false} NewShareEnters(ctx: Context, rs: seq<Record>, r: Record)
    requires AccountAll(ctx, rs).Ok? && CheckedShare(ctx, r).Ok? && ctx.maxShares < U64_MAX
    requires CheckedShare(ctx, r).value.id !in AccountAll(ctx, rs).value.accepted
    ensures var l, c := AccountAll(ctx, rs).value, CheckedShare(ctx, r).value;
            forall jobId :: AccountChecked(ctx.maxShares, l, jobId, c).Ok? <==>
                            |l.accepted| < ctx.maxShares && (jobId in l.usedJobs || |l.usedJobs| < 1_000_000)
  {
    var l, c := AccountAll(ctx, rs).value, CheckedShare(ctx, r).value;
    LedgerRemembers(ctx, rs);
    CheckedOwnWinners(ctx, r);
    InsertFresh(l.pending, c);
    AccountingConservation(ctx, rs);
    if |l.accepted| < ctx.maxShares { CountersNeverOverflow(ctx, rs, c.share); }
  }

  lemma {:induction false} CopyEnters(ctx: Context, rs: seq<Record>, r: Record)
    requires AccountAll(ctx, rs).Ok? && IsShare(r.tag) && r.version == 2 && ValidateCanonical32(r.jobId).Some?
    requires CheckedShare(ctx, r).Ok? && CheckedShare(ctx, r).value.id in AccountAll(ctx, rs).value.accepted
    ensures AccountRecord(ctx, AccountAll(ctx, rs).value, r).Ok? <==> r in rs
  {
    if r in rs {
      DuplicateShareIsIdle(ctx, rs, r);
      assert (rs + [r])[..|rs|] == rs;
    }
    if AccountRecord(ctx, AccountAll(ctx, rs).value, r).Ok? { KnownShareIsCopy(ctx, rs, r); }
  }

  lemma {:induction false} ShareIff(ctx: Context, rs: seq<Record>, r: Record)
    requires AccountAll(ctx, rs).Ok? && IsShare(r.tag) && ctx.maxShares < U64_MAX
    ensures AccountRecord(ctx, AccountAll(ctx, rs).value, r).Ok? <==> NextShare(ctx, rs, r)
  {
    if r.version == 2 && ValidateCanonical32(r.jobId).Some? && CheckedShare(ctx, r).Ok? {
      var l, c := AccountAll(ctx, rs).value, CheckedShare(ctx, r).value;
      CheckedReads(ctx, r);
      AcceptedAreIds(ctx, rs);
      JobIsUsed(ctx, rs, r.jobId);
      ShareRecordStep(ctx, l, r);
      if c.id in l.accepted {
        CopyEnters(ctx, rs, r);
      } else {
        assert r in rs ==> c.id in Ids(rs, Anything()) by { assert Anything()(r); }
        NewShareEnters(ctx, rs, r);
      }
    }
  }

  /* ----- status marks ----- */

  /** What the last mark of a winner allows next. */
  predicate MayFollow(tag: Tag, chain: Chain, last: Option<Tag>) {
    match tag
    case WinnerObserved | WinnerConfirmed => !Seen(last) && last != Some(WinnerMatured)
    case WinnerOrphaned => Seen(last) || last == Some(WinnerConflicting)
    case WinnerConflicting => chain == Wcash && last != Some(WinnerConflicting) && last != Some(WinnerMatured)
    case WinnerMatured => Seen(last)
    case _ => false
  }

  /** The mark names a winner that a share record claims, with that record's data, and may follow its last mark. */
  ghost predicate NextMark(rs: seq<Record>, r: Record) {
    && IsStatus(r.tag) && r.version == 2 && ValidStatusFields(r)
    && var key := WinnerKey(r.shareId.value.digest, ParseChain(r.chain).value);
       && MayFollow(r.tag, key.chain, LastStatus(rs, key))
       && Backed(rs, key, PendingStatus(r.jobId, r.blockHash.value, r.height.value, false, false))
  }

  /** The data of a winner is that of every record that claims it. */
  lemma {:induction false} OneDatum(ctx: Context, rs: seq<Record>, k: WinnerKey, p: PendingStatus, q: PendingStatus)
    requires AccountAll(ctx, rs).Ok? && Backed(rs, k, p) && Backed(rs, k, q)
    ensures p.jobId == q.jobId && p.blockHash == q.blockHash && p.height == q.height
  {
    var i :| 0 <= i < |rs| && Wins(rs[i], k) && DataOf(rs[i], k, p);
    var j :| 0 <= j < |rs| && Wins(rs[j], k) && DataOf(rs[j], k, q);
    OneRecordPerShare(ctx, rs, rs[i], rs[j]);
  }

  lemma {:induction false} DataBacks(rs: seq<Record>, k: WinnerKey, p: PendingStatus, q: PendingStatus)
    requires Backed(rs, k, p) && p.jobId == q.jobId && p.blockHash == q.blockHash && p.height == q.height
    ensures Backed(rs, k, q)
  {
    var i :| 0 <= i < |rs| && Wins(rs[i], k) && DataOf(rs[i], k, p);
    assert DataOf(rs[i], k, q);
  }

  /** The flags of a pending winner allow what its last mark allows. */
  lemma {:induction false} EffectIff(tag: Tag, chain: Chain, p: PendingStatus, last: Option<Tag>)
    requires p.observed <==> Seen(last)
    requires p.conflicting <==> last == Some(WinnerConflicting)
    requires last != Some(WinnerMatured)
    ensures EffectOf(tag, chain, p).Ok? <==> MayFollow(tag, chain, last)
  {
  }

  lemma {:induction false} MarkIff(ctx: Context, rs: seq<Record>, r: Record)
    requires AccountAll(ctx, rs).Ok? && IsStatus(r.tag)
    ensures AccountRecord(ctx, AccountAll(ctx, rs).value, r).Ok? <==> NextMark(rs, r)
  {
    var l := AccountAll(ctx, rs).value;
    if r.version == 2 && ValidStatusFields(r) {
      var key := WinnerKey(r.shareId.value.digest, ParseChain(r.chain).value);
      var q := PendingStatus(r.jobId, r.blockHash.value, r.height.value, false, false);
      PendingSpeaksForRecords(ctx, rs);
      assert WinnerMeans(rs, l.pending, key);
      if key in l.pending {
        var p := l.pending[key];
        EffectIff(r.tag, key.chain, p, LastStatus(rs, key));
        if Backed(rs, key, q) { OneDatum(ctx, rs, key, p, q); }
        if p.jobId == q.jobId && p.blockHash == q.blockHash && p.height == q.height { DataBacks(rs, key, p, q); }
      } else if Backed(rs, key, q) {
        assert Won(rs, key);
      }
    }
  }

  /**
   The grammar of accepted journals.  A record may follow an accepted journal if and only if it is an activation
   of a job that is named nowhere before, a share that is a copy or new, or a mark that may follow the last mark
   of a winner that some share claims, each as the writer builds it and while jobs and shares fit their limits.
   */
  lemma {:induction false} MayComeNext(ctx: Context, rs: seq<Record>, r: Record)
    requires AccountAll(ctx, rs).Ok? && ctx.maxShares < U64_MAX
    ensures AccountAll(ctx, rs + [r]).Ok? <==> NextActivation(rs, r) || NextShare(ctx, rs, r) || NextMark(rs, r)
  {
    assert (rs + [r])[..|rs|] == rs;
    if r.tag.JobActivated? {
      ActivationIff(ctx, rs, r);
    } else if IsShare(r.tag) {
      ShareIff(ctx, rs, r);
    } else if IsStatus(r.tag) {
      MarkIff(ctx, rs, r);
    }
  }
}
