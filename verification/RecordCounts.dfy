/**
 The payout counters in terms of the records of the journal: every counter is the number of distinct share
 identifiers among the records that name its worker, authentication, target or winner flag.
 */
module RecordCounts {
  import opened Common
  import opened Hex
  import opened JournalRecord
  import opened Accounting
  import opened Agreement
  import opened Conservation

  type Field = Record -> bool

  predicate HasId(r: Record) { r.shareId.Some? && r.shareId.value.Canonical? }

  /** The distinct identifiers of the share records with a property. */
  ghost function Ids(rs: seq<Record>, q: Field): set<Digest> {
    set r | r in rs && IsShare(r.tag) && HasId(r) && q(r) :: r.shareId.value.digest
  }

  /* ----- what a share record says ----- */

  function Named(text: Option<string>): string { if text.None? then "legacy_unknown" else text.value }

  /** A checked share carries the fields of its own record. */
  lemma {:induction false} CheckedReads(ctx: Context, r: Record)
    requires CheckedShare(ctx, r).Ok?
    ensures var c := CheckedShare(ctx, r).value;
            && r.shareId == Some(Canonical(c.id))
            && r.acceptedAt == Some(c.share.acceptedAt) && r.jobId == c.share.jobId
            && r.worker == Some(c.share.worker) && c.share.authentication == Named(r.workerAuthentication)
            && r.parentHashLe == Some(c.share.parentHashLe) && r.shareTarget == Some(c.share.shareTarget)
            && r.wcashBlockHash == Some(c.share.wcashBlockHash)
            && r.wcashHeight == Some(c.share.wcashHeight) && r.zcashHeight == Some(c.share.zcashHeight)
            && r.wcashCandidate == Some(c.share.wcashCandidate) && r.zcashCandidate == Some(c.share.zcashCandidate)
  {
  }

  /** A property of accepted shares and a property of records that say the same. */
  ghost predicate SameFor(ctx: Context, rs: seq<Record>, p: Property, q: Field) {
    forall r :: r in rs && CheckedShare(ctx, r).Ok? ==> (p(CheckedShare(ctx, r).value.share) <==> q(r))
  }

  /** The accepted shares with a property are the identifiers of the records with it. */
  lemma {:induction false} MatchingIsIds(ctx: Context, rs: seq<Record>, p: Property, q: Field)
    requires AccountAll(ctx, rs).Ok? && SameFor(ctx, rs, p, q)
    ensures Matching(AccountAll(ctx, rs).value.accepted, p) == Ids(rs, q)
  {
    var l, chk, origin := AccountAll(ctx, rs).value, CheckerOf(ctx), OriginOf(ctx, rs);
    LedgerRemembers(ctx, rs);
    RecordsOfAll(rs);
    forall id | id in Matching(l.accepted, p) ensures id in Ids(rs, q) {
      var r := origin[id];
      assert Behind(chk, l, id, r);
      CheckedReads(ctx, r);
      assert r in rs && IsShare(r.tag) && HasId(r) && q(r) && r.shareId.value.digest == id;
    }
    forall id | id in Ids(rs, q) ensures id in Matching(l.accepted, p) {
      var r :| r in rs && IsShare(r.tag) && HasId(r) && q(r) && r.shareId.value.digest == id;
      CheckedReads(ctx, r);
      assert Behind(chk, l, id, r);
    }
    assert Matching(l.accepted, p) == Ids(rs, q);
  }

  /** Counting accepted shares is counting records by their identifiers. */
  lemma {:induction false} TallyIsIds(ctx: Context, rs: seq<Record>, p: Property, q: Field)
    requires AccountAll(ctx, rs).Ok? && SameFor(ctx, rs, p, q)
    ensures Tally(AccountAll(ctx, rs).value.accepted, p) == |Ids(rs, q)|
  {
    MatchingIsIds(ctx, rs, p, q);
  }

  /** In an accepted journal all share records with one identifier are the same record. */
  lemma {:induction false} OneRecordPerShare(ctx: Context, rs: seq<Record>, a: Record, b: Record)
    requires AccountAll(ctx, rs).Ok? && a in rs && b in rs && IsShare(a.tag) && IsShare(b.tag)
    requires HasId(a) && a.shareId == b.shareId
    ensures a == b
  {
    LedgerRemembers(ctx, rs);
    RecordsOfAll(rs);
    CheckedReads(ctx, a);
    CheckedReads(ctx, b);
  }

  /* ----- the fields that are counted ----- */

  function Anything(): Field { (r: Record) => true }
  function ByAuth(a: string): Field { (r: Record) => Named(r.workerAuthentication) == a }
  function By(w: string): Field { (r: Record) => r.worker == Some(w) }
  function ByWorkerAuth(w: string, a: string): Field {
    (r: Record) => r.worker == Some(w) && Named(r.workerAuthentication) == a
  }
  function ByWorkerTarget(w: string, t: string): Field {
    (r: Record) => r.worker == Some(w) && r.shareTarget == Some(t)
  }
  function WcashBy(w: string): Field { (r: Record) => r.worker == Some(w) && r.wcashCandidate == Some(true) }
  function ZcashBy(w: string): Field { (r: Record) => r.worker == Some(w) && r.zcashCandidate == Some(true) }

  lemma {:induction false} SameFields(ctx: Context, rs: seq<Record>, w: string, x: string)
    ensures SameFor(ctx, rs, Any(), Anything()) && SameFor(ctx, rs, AuthIs(x), ByAuth(x))
    ensures SameFor(ctx, rs, WorkerIs(w), By(w))
    ensures SameFor(ctx, rs, WorkerAuthIs(w, x), ByWorkerAuth(w, x))
    ensures SameFor(ctx, rs, WorkerTargetIs(w, x), ByWorkerTarget(w, x))
    ensures SameFor(ctx, rs, WcashWinOf(w), WcashBy(w)) && SameFor(ctx, rs, ZcashWinOf(w), ZcashBy(w))
  {
    forall r | r in rs && CheckedShare(ctx, r).Ok?
      ensures var c := CheckedShare(ctx, r).value.share;
              && r.worker == Some(c.worker) && c.authentication == Named(r.workerAuthentication)
              && r.shareTarget == Some(c.shareTarget)
              && r.wcashCandidate == Some(c.wcashCandidate) && r.zcashCandidate == Some(c.zcashCandidate)
    {
      CheckedReads(ctx, r);
    }
  }

  /** The counters of one worker, over the records. */
  ghost predicate WorkerCountsRecords(rs: seq<Record>, w: string, c: WorkerCounts) {
    && c.acceptedShares == |Ids(rs, By(w))|
    && (forall a :: Count(c.byAuthentication, a) == |Ids(rs, ByWorkerAuth(w, a))|)
    && (forall t :: Count(c.byTarget, t) == |Ids(rs, ByWorkerTarget(w, t))|)
    && c.wcashWinners == |Ids(rs, WcashBy(w))|
    && c.zcashWinners == |Ids(rs, ZcashBy(w))|
  }

  lemma {:induction false} WorkerFromRecords(ctx: Context, rs: seq<Record>, w: string)
    requires AccountAll(ctx, rs).Ok?
    ensures WorkerCountsRecords(rs, w, WorkerOf(AccountAll(ctx, rs).value.snapshot, w))
  {
    var l := AccountAll(ctx, rs).value;
    AccountingConservation(ctx, rs);
    assert WorkerExact(l.accepted, w, WorkerOf(l.snapshot, w));
    SameFields(ctx, rs, w, "");
    TallyIsIds(ctx, rs, WorkerIs(w), By(w));
    TallyIsIds(ctx, rs, WcashWinOf(w), WcashBy(w));
    TallyIsIds(ctx, rs, ZcashWinOf(w), ZcashBy(w));
    forall a ensures Tally(l.accepted, WorkerAuthIs(w, a)) == |Ids(rs, ByWorkerAuth(w, a))| {
      SameFields(ctx, rs, w, a);
      TallyIsIds(ctx, rs, WorkerAuthIs(w, a), ByWorkerAuth(w, a));
    }
    forall t ensures Tally(l.accepted, WorkerTargetIs(w, t)) == |Ids(rs, ByWorkerTarget(w, t))| {
      SameFields(ctx, rs, w, t);
      TallyIsIds(ctx, rs, WorkerTargetIs(w, t), ByWorkerTarget(w, t));
    }
  }

  /* ----- no empty entries ----- */

  predicate PositiveBuckets(m: map<string, nat>) { forall k :: k in m ==> m[k] > 0 }

  predicate PositiveWorker(c: WorkerCounts) {
    c.acceptedShares > 0 && PositiveBuckets(c.byAuthentication) && PositiveBuckets(c.byTarget)
  }

  predicate Positive(s: Snapshot) {
    PositiveBuckets(s.byAuthentication) && forall w :: w in s.workers ==> PositiveWorker(s.workers[w])
  }

  lemma {:induction false} PositiveShare(s: Snapshot, share: ImmutableShare)
    requires Positive(s) && ApplyShare(s, share).Ok?
    ensures Positive(ApplyShare(s, share).value)
  {
    var s' := ApplyShare(s, share).value;
    assert PositiveWorker(s'.workers[share.worker]);
  }

  lemma {:induction false} PositiveChecked(maxShares: nat, l: Ledger, jobId: seq<byte>, c: Checked)
    requires Positive(l.snapshot) && AccountChecked(maxShares, l, jobId, c).Ok?
    ensures Positive(AccountChecked(maxShares, l, jobId, c).value.snapshot)
  {
    if c.id !in l.accepted { PositiveShare(l.snapshot, c.share); }
  }

  lemma {:induction false} AlwaysPositive(ctx: Context, rs: seq<Record>)
    requires AccountAll(ctx, rs).Ok?
    ensures Positive(AccountAll(ctx, rs).value.snapshot)
  {
    if rs == [] {
    } else {
      var n := |rs| - 1;
      var l, r := AccountAll(ctx, rs[..n]).value, rs[n];
      AlwaysPositive(ctx, rs[..n]);
      if IsShare(r.tag) {
        PositiveChecked(ctx.maxShares, l, ValidateCanonical32(r.jobId).value, CheckedShare(ctx, r).value);
      }
    }
  }

  /**
   The snapshot of every accepted journal, over its records alone.  The grand total, each authentication bucket
   and every counter of every worker is the number of distinct identifiers among the share records that say so;
   and exactly the workers that such a record names have an entry.
   */
  lemma {:induction false} SnapshotCountsRecords(ctx: Context, rs: seq<Record>)
    requires AccountAll(ctx, rs).Ok?
    ensures var s := AccountAll(ctx, rs).value.snapshot;
            && s.acceptedShares == |Ids(rs, Anything())|
            && (forall a :: Count(s.byAuthentication, a) == |Ids(rs, ByAuth(a))|)
            && (forall w :: WorkerCountsRecords(rs, w, WorkerOf(s, w)))
            && (forall w :: w in s.workers <==> Ids(rs, By(w)) != {})
            && Positive(s)
  {
    var l := AccountAll(ctx, rs).value;
    AccountingConservation(ctx, rs);
    AlwaysPositive(ctx, rs);
    SameFields(ctx, rs, "", "");
    TallyIsIds(ctx, rs, Any(), Anything());
    forall a ensures Count(l.snapshot.byAuthentication, a) == |Ids(rs, ByAuth(a))| {
      SameFields(ctx, rs, "", a);
      TallyIsIds(ctx, rs, AuthIs(a), ByAuth(a));
    }
    forall w ensures WorkerCountsRecords(rs, w, WorkerOf(l.snapshot, w))
                     && (w in l.snapshot.workers <==> Ids(rs, By(w)) != {})
    {
      WorkerFromRecords(ctx, rs, w);
      assert w in l.snapshot.workers <==> WorkerOf(l.snapshot, w).acceptedShares > 0;
    }
  }
}
