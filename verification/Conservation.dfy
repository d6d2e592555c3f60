/**
 Accounting conservation: the payout counters are exactly the group-by counts of the
 accepted shares, every total is the sum of its parts, and copies of shares are idle.
 */
module Conservation {
  import opened Common
  import opened Hex
  import opened JournalRecord
  import opened Accounting
  import opened Agreement

  /* ----- counting accepted shares ----- */

  type Property = ImmutableShare -> bool

  function Matching(accepted: map<Digest, ImmutableShare>, p: Property): set<Digest> {
    set id | id in accepted && p(accepted[id])
  }

  /** The number of accepted shares with a property. */
  function Tally(accepted: map<Digest, ImmutableShare>, p: Property): nat {
    |Matching(accepted, p)|
  }

  lemma {:induction false} TallyAdd(
    accepted: map<Digest, ImmutableShare>, id: Digest, share: ImmutableShare, p: Property)
    requires id !in accepted
    ensures Tally(accepted[id := share], p) == Tally(accepted, p) + if p(share) then 1 else 0
  {
    var more, before := accepted[id := share], Matching(accepted, p);
    assert id !in before;
    assert forall x :: x in Matching(more, p) <==> x in before || (x == id && p(share));
    assert Matching(more, p) == if p(share) then before + {id} else before;
  }

  function Any(): Property { (s: ImmutableShare) => true }
  function AuthIs(a: string): Property { (s: ImmutableShare) => s.authentication == a }
  function WorkerIs(w: string): Property { (s: ImmutableShare) => s.worker == w }
  function WorkerAuthIs(w: string, a: string): Property {
    (s: ImmutableShare) => s.worker == w && s.authentication == a
  }
  function WorkerTargetIs(w: string, t: string): Property { (s: ImmutableShare) => s.worker == w && s.shareTarget == t }
  function WcashWinOf(w: string): Property { (s: ImmutableShare) => s.worker == w && s.wcashCandidate }
  function ZcashWinOf(w: string): Property { (s: ImmutableShare) => s.worker == w && s.zcashCandidate }

  /** One worker's counters are the counts of that worker's accepted shares. */
  ghost predicate WorkerExact(accepted: map<Digest, ImmutableShare>, w: string, c: WorkerCounts) {
    && c.acceptedShares == Tally(accepted, WorkerIs(w))
    && (forall a :: Count(c.byAuthentication, a) == Tally(accepted, WorkerAuthIs(w, a)))
    && (forall t :: Count(c.byTarget, t) == Tally(accepted, WorkerTargetIs(w, t)))
    && c.wcashWinners == Tally(accepted, WcashWinOf(w))
    && c.zcashWinners == Tally(accepted, ZcashWinOf(w))
  }

  /** The whole snapshot is the group-by of the accepted shares. */
  ghost predicate Exact(accepted: map<Digest, ImmutableShare>, s: Snapshot) {
    && s.acceptedShares == Tally(accepted, Any())
    && (forall a :: Count(s.byAuthentication, a) == Tally(accepted, AuthIs(a)))
    && (forall w :: WorkerExact(accepted, w, WorkerOf(s, w)))
  }

  /** How the counts of one worker move when a share is accepted. */
  lemma {:induction false} WorkerTallies(
    accepted: map<Digest, ImmutableShare>, id: Digest, share: ImmutableShare, w: string)
    requires id !in accepted
    ensures var more, own := accepted[id := share], if w == share.worker then 1 else 0;
            && Tally(more, WorkerIs(w)) == Tally(accepted, WorkerIs(w)) + own
            && Tally(more, WcashWinOf(w)) == Tally(accepted, WcashWinOf(w)) + (if share.wcashCandidate then own else 0)
            && Tally(more, ZcashWinOf(w)) == Tally(accepted, ZcashWinOf(w)) + (if share.zcashCandidate then own else 0)
            && (forall a :: Tally(more, WorkerAuthIs(w, a))
                         == Tally(accepted, WorkerAuthIs(w, a)) + if a == share.authentication then own else 0)
            && (forall t :: Tally(more, WorkerTargetIs(w, t))
                         == Tally(accepted, WorkerTargetIs(w, t)) + if t == share.shareTarget then own else 0)
  {
    TallyAdd(accepted, id, share, WorkerIs(w));
    TallyAdd(accepted, id, share, WcashWinOf(w));
    TallyAdd(accepted, id, share, ZcashWinOf(w));
    forall a { TallyAdd(accepted, id, share, WorkerAuthIs(w, a)); }
    forall t { TallyAdd(accepted, id, share, WorkerTargetIs(w, t)); }
  }

  lemma {:induction false} OtherWorkerStep(
    accepted: map<Digest, ImmutableShare>, id: Digest, share: ImmutableShare, w: string, c: WorkerCounts)
    requires WorkerExact(accepted, w, c) && id !in accepted && w != share.worker
    ensures WorkerExact(accepted[id := share], w, c)
  {
    WorkerTallies(accepted, id, share, w);
  }

  lemma {:induction false} OwnWorkerStep(
    accepted: map<Digest, ImmutableShare>, id: Digest, share: ImmutableShare, c: WorkerCounts)
    requires WorkerExact(accepted, share.worker, c) && id !in accepted && CountWorker(c, share).Ok?
    ensures WorkerExact(accepted[id := share], share.worker, CountWorker(c, share).value)
  {
    var more, w, c' := accepted[id := share], share.worker, CountWorker(c, share).value;
    WorkerTallies(accepted, id, share, w);
    forall a ensures Count(c'.byAuthentication, a) == Tally(more, WorkerAuthIs(w, a)) {
      assert Count(c.byAuthentication, a) == Tally(accepted, WorkerAuthIs(w, a));
    }
    forall t ensures Count(c'.byTarget, t) == Tally(more, WorkerTargetIs(w, t)) {
      assert Count(c.byTarget, t) == Tally(accepted, WorkerTargetIs(w, t));
    }
  }

  lemma {:induction false} ExactStep(
    accepted: map<Digest, ImmutableShare>, id: Digest, share: ImmutableShare, s: Snapshot)
    requires Exact(accepted, s) && id !in accepted && ApplyShare(s, share).Ok?
    ensures Exact(accepted[id := share], ApplyShare(s, share).value)
  {
    var more, s' := accepted[id := share], ApplyShare(s, share).value;
    TallyAdd(accepted, id, share, Any());
    forall a ensures Count(s'.byAuthentication, a) == Tally(more, AuthIs(a)) {
      TallyAdd(accepted, id, share, AuthIs(a));
    }
    forall w ensures WorkerExact(more, w, WorkerOf(s', w)) {
      assert WorkerExact(accepted, w, WorkerOf(s, w));
      if w == share.worker {
        OwnWorkerStep(accepted, id, share, WorkerOf(s, w));
      } else {
        OtherWorkerStep(accepted, id, share, w, WorkerOf(s, w));
      }
    }
  }

  /* ----- totals are sums of their parts ----- */

  /** The sum of all buckets. */
  ghost function SumValues(m: map<string, nat>): nat {
    if m == map[] then 0
    else
      var k :| k in m;
      m[k] + SumValues(m - {k})
  }

  lemma {:induction false} SumRemove(m: map<string, nat>, k: string)
    requires k in m
    ensures SumValues(m) == m[k] + SumValues(m - {k})
    decreases |m|
  {
    var j :| j in m && SumValues(m) == m[j] + SumValues(m - {j});
    if j != k {
      assert (m - {j}) - {k} == (m - {k}) - {j};
      assert |m - {j}| < |m| by { assert (m - {j}).Keys == m.Keys - {j}; }
      assert |m - {k}| < |m| by { assert (m - {k}).Keys == m.Keys - {k}; }
      SumRemove(m - {j}, k);
      SumRemove(m - {k}, j);
    }
  }

  lemma {:induction false} SumUpdate(m: map<string, nat>, k: string, v: nat)
    ensures SumValues(m[k := v]) + Count(m, k) == SumValues(m) + v
  {
    SumRemove(m[k := v], k);
    if k in m {
      SumRemove(m, k);
      assert m[k := v] - {k} == m - {k};
    } else {
      assert m[k := v] - {k} == m;
    }
  }

  lemma {:induction false} BucketBelowSum(m: map<string, nat>, k: string)
    ensures Count(m, k) <= SumValues(m)
  {
    if k in m { SumRemove(m, k); }
  }

  function WorkerTotals(workers: map<string, WorkerCounts>): map<string, nat> {
    map w | w in workers :: workers[w].acceptedShares
  }

  ghost function TargetTotals(s: Snapshot): map<string, nat> {
    map w | w in s.workers :: SumValues(s.workers[w].byTarget)
  }

  ghost predicate WorkerBalanced(c: WorkerCounts) {
    && c.acceptedShares == SumValues(c.byAuthentication) == SumValues(c.byTarget)
    && c.wcashWinners <= c.acceptedShares && c.zcashWinners <= c.acceptedShares
  }

  ghost predicate Balanced(s: Snapshot) {
    && s.acceptedShares == SumValues(s.byAuthentication) == SumValues(WorkerTotals(s.workers))
    && forall w :: w in s.workers ==> WorkerBalanced(s.workers[w])
  }

  lemma {:induction false} WorkerBalancedStep(c: WorkerCounts, share: ImmutableShare)
    requires WorkerBalanced(c) && CountWorker(c, share).Ok?
    ensures WorkerBalanced(CountWorker(c, share).value)
  {
    SumUpdate(c.byAuthentication, share.authentication, Count(c.byAuthentication, share.authentication) + 1);
    SumUpdate(c.byTarget, share.shareTarget, Count(c.byTarget, share.shareTarget) + 1);
  }

  lemma {:induction false} TotalsStep(workers: map<string, WorkerCounts>, name: string, w: WorkerCounts)
    ensures WorkerTotals(workers[name := w])
         == WorkerTotals(workers)[name := w.acceptedShares]
  {
  }

  lemma {:induction false} SumIncrement(m: map<string, nat>, k: string)
    ensures SumValues(m[k := Count(m, k) + 1]) == SumValues(m) + 1
  {
    SumUpdate(m, k, Count(m, k) + 1);
  }

  /** The fields of a snapshot after one share, without the overflow checks. */
  lemma {:induction false} ApplyShareFields(s: Snapshot, share: ImmutableShare)
    requires ApplyShare(s, share).Ok?
    ensures var s', w := ApplyShare(s, share).value, WorkerOf(s, share.worker);
            && s'.acceptedShares == s.acceptedShares + 1
            && s'.byAuthentication
                == s.byAuthentication[share.authentication := Count(s.byAuthentication, share.authentication) + 1]
            && CountWorker(w, share).Ok? && CountWorker(w, share).value.acceptedShares == w.acceptedShares + 1
            && s'.workers == s.workers[share.worker := CountWorker(w, share).value]
  {
  }

  lemma {:induction false} TotalsSum(workers: map<string, WorkerCounts>, name: string, w: WorkerCounts)
    requires w.acceptedShares == (if name in workers then workers[name].acceptedShares else 0) + 1
    ensures SumValues(WorkerTotals(workers[name := w])) == SumValues(WorkerTotals(workers)) + 1
  {
    TotalsStep(workers, name, w);
    SumIncrement(WorkerTotals(workers), name);
  }

  lemma {:induction false} BalancedFrom(s: Snapshot, s': Snapshot, auth: string, name: string, w': WorkerCounts)
    requires Balanced(s) && WorkerBalanced(w')
    requires w'.acceptedShares == WorkerOf(s, name).acceptedShares + 1
    requires s' == Snapshot(s.acceptedShares + 1,
                            s.byAuthentication[auth := Count(s.byAuthentication, auth) + 1], s.workers[name := w'])
    ensures Balanced(s')
  {
    SumIncrement(s.byAuthentication, auth);
    TotalsSum(s.workers, name, w');
    BalancedParts(s', s, name, w');
  }

  lemma {:induction false} BalancedStep(s: Snapshot, share: ImmutableShare)
    requires Balanced(s) && ApplyShare(s, share).Ok?
    ensures Balanced(ApplyShare(s, share).value)
  {
    var w := WorkerOf(s, share.worker);
    ApplyShareFields(s, share);
    assert WorkerBalanced(w);
    WorkerBalancedStep(w, share);
    BalancedFrom(s, ApplyShare(s, share).value, share.authentication, share.worker, CountWorker(w, share).value);
  }

  lemma {:induction false} BalancedParts(s': Snapshot, s: Snapshot, name: string, w: WorkerCounts)
    requires Balanced(s) && WorkerBalanced(w) && s'.workers == s.workers[name := w]
    requires s'.acceptedShares == SumValues(s'.byAuthentication) == SumValues(WorkerTotals(s'.workers))
    ensures Balanced(s')
  {
  }

  lemma {:induction false} WorkerNeverOverflows(w: WorkerCounts, share: ImmutableShare)
    requires WorkerBalanced(w) && w.acceptedShares < U64_MAX
    ensures CountWorker(w, share).Ok?
  {
    BucketBelowSum(w.byAuthentication, share.authentication);
    BucketBelowSum(w.byTarget, share.shareTarget);
  }

  /** In a balanced snapshot no checked increment overflows before the grand total does. */
  lemma {:induction false} BalancedNeverOverflows(s: Snapshot, share: ImmutableShare)
    requires Balanced(s) && s.acceptedShares < U64_MAX
    ensures ApplyShare(s, share).Ok?
  {
    var w := WorkerOf(s, share.worker);
    BucketBelowSum(s.byAuthentication, share.authentication);
    BucketBelowSum(WorkerTotals(s.workers), share.worker);
    assert WorkerBalanced(w);
    assert w.acceptedShares <= s.acceptedShares;
    WorkerNeverOverflows(w, share);
  }

  /* ----- every accepted journal ----- */

  ghost predicate Conserved(l: Ledger) {
    Exact(l.accepted, l.snapshot) && Balanced(l.snapshot)
  }

  lemma {:induction false} ConservedStep(ctx: Context, l: Ledger, r: Record)
    requires Conserved(l) && AccountRecord(ctx, l, r).Ok?
    ensures Conserved(AccountRecord(ctx, l, r).value)
  {
    if IsShare(r.tag) {
      var c := CheckedShare(ctx, r).value;
      ConservedChecked(ctx.maxShares, l, ValidateCanonical32(r.jobId).value, c);
    }
  }

  lemma {:induction false} ConservedChecked(maxShares: nat, l: Ledger, jobId: seq<byte>, c: Checked)
    requires Conserved(l) && AccountChecked(maxShares, l, jobId, c).Ok?
    ensures Conserved(AccountChecked(maxShares, l, jobId, c).value)
  {
    if c.id !in l.accepted {
      ExactStep(l.accepted, c.id, c.share, l.snapshot);
      BalancedStep(l.snapshot, c.share);
    }
  }

  lemma {:induction false} EmptyConserved()
    ensures Conserved(EMPTY_LEDGER)
  {
    assert forall p: Property :: Matching(map[], p) == {};
    assert WorkerTotals(EMPTY_SNAPSHOT.workers) == map[];
  }

  lemma {:induction false} JournalConserved(ctx: Context, rs: seq<Record>)
    requires AccountAll(ctx, rs).Ok?
    ensures Conserved(AccountAll(ctx, rs).value)
  {
    if rs == [] {
      EmptyConserved();
    } else {
      var n := |rs| - 1;
      JournalConserved(ctx, rs[..n]);
      ConservedStep(ctx, AccountAll(ctx, rs[..n]).value, rs[n]);
    }
  }

  /**
   Accounting conservation.  For every accepted journal the total equals the number of distinct
   share identifiers, the sum over workers, the sum over authentication buckets and the sum over
   all workers' target buckets, and each counter is the exact count of the shares it stands for.
   */
  lemma {:induction false} AccountingConservation(ctx: Context, rs: seq<Record>)
    requires AccountAll(ctx, rs).Ok?
    ensures var l := AccountAll(ctx, rs).value;
            && l.snapshot.acceptedShares == |l.accepted|
            && l.snapshot.acceptedShares == SumValues(WorkerTotals(l.snapshot.workers))
            && l.snapshot.acceptedShares == SumValues(l.snapshot.byAuthentication)
            && l.snapshot.acceptedShares == SumValues(TargetTotals(l.snapshot))
            && Exact(l.accepted, l.snapshot)
  {
    var l := AccountAll(ctx, rs).value;
    JournalConserved(ctx, rs);
    assert Matching(l.accepted, Any()) == l.accepted.Keys;
    assert TargetTotals(l.snapshot) == WorkerTotals(l.snapshot.workers);
  }

  /** The overflow errors of the counters are unreachable below 2^64 - 1 accepted shares. */
  lemma {:induction false} CountersNeverOverflow(ctx: Context, rs: seq<Record>, share: ImmutableShare)
    requires AccountAll(ctx, rs).Ok? && |AccountAll(ctx, rs).value.accepted| < U64_MAX
    ensures ApplyShare(AccountAll(ctx, rs).value.snapshot, share).Ok?
  {
    JournalConserved(ctx, rs);
    AccountingConservation(ctx, rs);
    BalancedNeverOverflows(AccountAll(ctx, rs).value.snapshot, share);
  }

  /* ----- copies ----- */

  lemma {:induction false} StatusChanges(pending: map<WinnerKey, PendingStatus>, r: Record)
    requires ApplyWinnerStatus(pending, r).Ok?
    ensures ApplyWinnerStatus(pending, r).value != pending
  {
    var key := WinnerKey(r.shareId.value.digest, ParseChain(r.chain).value);
    assert key in pending;
  }

  /** A record leaves the ledger of an accepted journal unchanged if and only if it copies one of its shares. */
  lemma {:induction false} IdleIffDuplicateShare(ctx: Context, rs: seq<Record>, r: Record)
    requires AccountAll(ctx, rs).Ok?
    ensures AccountAll(ctx, rs + [r]) == AccountAll(ctx, rs) <==> IsShare(r.tag) && r in rs
  {
    var l := AccountAll(ctx, rs).value;
    assert (rs + [r])[..|rs|] == rs;
    assert AccountAll(ctx, rs + [r]) == AccountRecord(ctx, l, r);
    if IsShare(r.tag) && r in rs {
      DuplicateShareIsIdle(ctx, rs, r);
    }
    if AccountRecord(ctx, l, r) == Ok(l) {
      if IsShare(r.tag) {
        IdleShareWasRead(ctx, rs, r);
      } else if IsStatus(r.tag) {
        StatusChanges(l.pending, r);
      }
    }
  }

  lemma {:induction false} IdleShareWasRead(ctx: Context, rs: seq<Record>, r: Record)
    requires AccountAll(ctx, rs).Ok? && IsShare(r.tag)
    requires AccountRecord(ctx, AccountAll(ctx, rs).value, r) == Ok(AccountAll(ctx, rs).value)
    ensures r in rs
  {
    var l, c, origin := AccountAll(ctx, rs).value, CheckedShare(ctx, r).value, OriginOf(ctx, rs);
    assert AccountChecked(ctx.maxShares, l, ValidateCanonical32(r.jobId).value, c) == Ok(l);
    LedgerRemembers(ctx, rs);
    RecordsOfAll(rs);
    SameOrigin(ctx, RecordsOf(rs), l, origin, r);
  }

  /** Copies of earlier shares may stand anywhere later in a journal without changing its outcome. */
  lemma {:induction false} DuplicateAnywhere(ctx: Context, a: seq<Record>, b: seq<Record>, r: Record)
    requires AccountAll(ctx, a + b).Ok? && r in a && IsShare(r.tag)
    ensures AccountAll(ctx, a + [r] + b) == AccountAll(ctx, a + b)
  {
    AccountFromAppend(ctx, EMPTY_LEDGER, a, b);
    AccountFromAppend(ctx, EMPTY_LEDGER, a + [r], b);
    DuplicateShareIsIdle(ctx, a, r);
  }
}
