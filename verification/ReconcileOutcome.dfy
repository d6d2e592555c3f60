/**
 What a reconciliation pass does, stated from the node replies alone: for every lifecycle state and every
 reply exactly one outcome, and what that means for a reward whose block was reorganized away.
 */
module ReconcileOutcome {
  import opened Common
  import opened JournalRecord
  import opened Lifecycle
  import opened Reconcile

  /* ----- Zcash winners that are only audited ----- */

  /** Every node that an audit asks has answered. */
  predicate Answered(s: State, re: ZcashReplies) {
    && re.previousHash.Ok? && re.identity.Ok? && re.before.Ok? && re.after.Ok?
    && (s.Observed? && re.redeliver ==> re.report.Ok?)
    && AuditDepth(s, re).Ok?
  }

  /** The depth check that counts: strict for a side-chain winner. */
  function AuditDepth(s: State, re: ZcashReplies): Result<Option<u32>> {
    if s.SideChain? then re.strictDepth else re.depth
  }

  /** Both tips are the same and the depth check says `found`. */
  predicate Sees(s: State, re: ZcashReplies, tip: Tip, found: Option<u32>) {
    Answered(s, re) && re.before == Ok(tip) && re.after == Ok(tip) && AuditDepth(s, re) == Ok(found)
  }

  predicate Deep(tip: Tip, w: Winner, c: u32) { c == tip.height - w.height + 1 && c >= 1 }

  /** A sighting that changes nothing: a matured winner at or above its threshold, or the same as the last. */
  predicate NoNews(s: State, w: Winner, tip: Tip, c: u32) {
    match s
    case Matured(_, _) => c >= w.maturity
    case Observed(previousTip, previous) => c < w.maturity && tip == previousTip && c == previous
    case _ => false
  }

  /** A Zcash audit orphans a winner if and only if the winner is credited and a stable tip does not have its block. */
  lemma {:induction false} OrphanedIffGone(s: State, w: Winner, re: ZcashReplies, tip: Tip)
    requires !RequiresSubmission(s) && ZcashState(s)
    ensures ReconcileZcash(s, w, re) == Got(Some(ToOrphaned(tip))) <==> Credited(s) && Sees(s, re, tip, None)
  {
  }

  /** It becomes or stays observed on news of a stable tip, below the threshold or from outside credit. */
  lemma {:induction false} ObservedIffSeen(s: State, w: Winner, re: ZcashReplies, tip: Tip, c: u32)
    requires !RequiresSubmission(s) && ZcashState(s)
    ensures ReconcileZcash(s, w, re) == Got(Some(ToObserved(tip, c))) <==>
            && Sees(s, re, tip, Some(c)) && Deep(tip, w, c) && !NoNews(s, w, tip, c)
            && (s.Observed? ==> c < w.maturity)
  {
  }

  /** It matures if and only if it was observed and a stable tip has it at the threshold. */
  lemma {:induction false} MaturedIffDeep(s: State, w: Winner, re: ZcashReplies, tip: Tip, c: u32)
    requires !RequiresSubmission(s) && ZcashState(s)
    ensures ReconcileZcash(s, w, re) == Got(Some(ToMatured(tip, c))) <==>
            s.Observed? && Sees(s, re, tip, Some(c)) && Deep(tip, w, c) && c >= w.maturity
  {
  }

  /** Nothing is recorded if and only if the tip moved, or a stable tip had no news. */
  lemma {:induction false} IdleIffNoNews(s: State, w: Winner, re: ZcashReplies)
    requires !RequiresSubmission(s) && ZcashState(s)
    ensures ReconcileZcash(s, w, re) == Got(None) <==>
            && Answered(s, re)
            && (|| re.before != re.after
                || (!Credited(s) && AuditDepth(s, re) == Ok(None))
                || exists c: u32 :: AuditDepth(s, re) == Ok(Some(c)) && Deep(re.before.value, w, c)
                                    && NoNews(s, w, re.before.value, c))
  {
  }

  /** An audit fails, without blocking, if and only if a node did not answer or a stable tip contradicts the depth. */
  lemma {:induction false} AuditFailsIff(s: State, w: Winner, re: ZcashReplies, blocked: bool)
    requires !RequiresSubmission(s) && ZcashState(s)
    ensures ReconcileZcash(s, w, re) == Failed(blocked) <==>
            && !blocked
            && (|| !Answered(s, re)
                || (re.before == re.after && AuditDepth(s, re).value.Some?
                    && !Deep(re.before.value, w, AuditDepth(s, re).value.value)))
  {
  }

  /* ----- a pending Zcash winner ----- */

  /** Every node that a submitting pass asks before the depth check has answered. */
  predicate Heard(w: Winner, re: ZcashReplies) {
    re.previousHash.Ok? && re.report.Ok? && re.identity.Ok? && re.before.Ok? && re.exactOnTemplate.Ok? && w.height > 0
  }

  predicate TipBehind(w: Winner, tip: Tip) { tip.height + 1 < w.height }

  /** Another block has the winner's height: the tip is not behind, not its predecessor, and not on its chain. */
  predicate HeightTaken(w: Winner, re: ZcashReplies)
    requires Heard(w, re)
  {
    var tip := re.before.value;
    && !TipBehind(w, tip)
    && !(tip.height + 1 == w.height && tip.hash == re.previousHash.value)
    && !(tip.height >= w.height && re.exactOnTemplate.value)
  }

  /** A node confirmed the block, every relay got it, and one of them or the pinned node admitted it. */
  predicate ReachedNetwork(r: Report) {
    && (exists i :: 0 <= i < |r.outcomes| && r.outcomes[i] == Accepted)
    && (forall i :: 0 <= i < |r.relaysDelivered| ==> r.relaysDelivered[i])
    && (r.pinnedAdmitted || r.relaysDelivered != [])
  }

  predicate SideChained(r: Report) {
    r.outcomes != [] && forall i :: 0 <= i < |r.outcomes| ==> r.outcomes[i] == KnownSideChain
  }

  predicate OffChain(w: Winner, re: ZcashReplies)
    requires Heard(w, re)
  {
    SideChained(re.report.value) || HeightTaken(w, re)
  }

  /** The depth check that counts for a pending winner, once its delivery does not stop the pass. */
  function PendingDepth(w: Winner, re: ZcashReplies): Result<Option<u32>>
    requires Heard(w, re)
  {
    if OffChain(w, re) then re.strictDepth
    else if ReachedNetwork(re.report.value) && !TipBehind(w, re.before.value) then re.depth
    else Err
  }

  lemma {:induction false} ReportWords(r: Report)
    ensures Delivered(r) <==> ReachedNetwork(r)
    ensures AllSideChain(r) <==> SideChained(r)
    ensures SideChained(r) ==> !ReachedNetwork(r)
  {
    if Confirmed(r) {
      var i :| 0 <= i < |r.outcomes| && r.outcomes[i] == Accepted;
    }
    if ReachedNetwork(r) {
      var i :| 0 <= i < |r.outcomes| && r.outcomes[i] == Accepted;
      assert Accepted in r.outcomes;
    }
  }

  /** Exactly what one pass makes of a pending Zcash winner. */
  lemma {:induction false} PendingOutcome(w: Winner, re: ZcashReplies, tip: Tip, c: u32)
    requires w.chain == Zcash
    ensures var out := ReconcileZcash(Pending, w, re);
            var settled := Heard(w, re) && re.after.Ok? && PendingDepth(w, re).Ok?;
            && (out == Got(Some(ToObserved(tip, c))) <==>
                settled && re.before == re.after == Ok(tip) && PendingDepth(w, re) == Ok(Some(c)) && Deep(tip, w, c))
            && (out == Got(Some(ToSideChain(tip))) <==>
                settled && re.before == re.after == Ok(tip) && re.strictDepth == Ok(None) && OffChain(w, re))
            && (out == Got(None) <==>
                settled && (re.before != re.after || (re.depth == Ok(None) && !OffChain(w, re))))
            && (out.Got? && out.value.Some? ==> out.value.value.ToObserved? || out.value.value.ToSideChain?)
  {
    if re.report.Ok? { ReportWords(re.report.value); }
  }

  /** Exactly when a pass over a pending winner reports that its delivery is blocked. */
  lemma {:induction false} BlockedIff(w: Winner, re: ZcashReplies)
    requires w.chain == Zcash
    ensures ReconcileZcash(Pending, w, re) == Failed(true) <==>
            || re.previousHash.Err? || re.report.Err?
            || (!SideChained(re.report.value)
                && (if Heard(w, re) then !HeightTaken(w, re) && (TipBehind(w, re.before.value)
                                                                 || !ReachedNetwork(re.report.value))
                    else !ReachedNetwork(re.report.value)))
  {
    if re.report.Ok? { ReportWords(re.report.value); }
  }

  /* ----- a reorganization is noticed ----- */

  /** A stable pass over a winner that needs no submission does not find its block. */
  predicate Gone(s: State, re: ZcashReplies) {
    !RequiresSubmission(s) && Answered(s, re) && re.before == re.after && AuditDepth(s, re) == Ok(None)
  }

  /** After such a pass the winner is not credited, and a credited one is orphaned at that tip. */
  lemma {:induction false} GoneEndsCredit(s: State, w: Winner, re: ZcashReplies)
    requires ZcashState(s) && Gone(s, re)
    ensures !Credited(ZcashStep(s, w, re))
    ensures Credited(s) ==> ZcashStep(s, w, re) == Orphaned(re.before.value)
  {
  }

  lemma {:induction false} AfterGone(w: Winner, passes: seq<ZcashReplies>, k: nat)
    requires w.chain == Zcash && k < |passes| && Gone(ZcashRun(w, passes[..k]), passes[k])
    ensures !Credited(ZcashRun(w, passes[..k + 1]))
  {
    ZcashRunIsSane(w, passes[..k]);
    GoneEndsCredit(ZcashRun(w, passes[..k]), w, passes[k]);
    assert passes[..k + 1][..k] == passes[..k];
  }

  /**
   Over every run: a Zcash winner that is credited now entered credit, with evidence, after every pass that did
   not find its block.
   */
  lemma {:induction false} CreditIsNewerThanReorg(w: Winner, passes: seq<ZcashReplies>, k: nat)
    requires w.chain == Zcash && k < |passes| && Gone(ZcashRun(w, passes[..k]), passes[k])
    requires Credited(ZcashRun(w, passes))
    ensures exists i :: k < i < |passes| && ZcashEntry(ZcashRun(w, passes[..i]), w, passes[i])
                        && ZcashCreditedSince(w, passes, i)
  {
    AfterGone(w, passes, k);
    var i := ZcashLastEntry(w, passes);
    assert i > k;
  }

  /* ----- Wcash winners that are only audited ----- */

  predicate WcashAnswered(re: WcashReplies) {
    re.material.Ok? && re.before.Ok? && re.status.Ok? && re.after.Ok?
  }

  /** Both tips are the same and the node's status of the exact bytes is `status`. */
  predicate WcashSees(re: WcashReplies, tip: Tip, status: Status) {
    WcashAnswered(re) && re.before == Ok(tip) && re.after == Ok(tip) && re.status == Ok(status)
  }

  /** Exactly what one pass makes of a Wcash winner that needs no submission. */
  lemma {:induction false} WcashAuditOutcome(s: State, w: Winner, re: WcashReplies, tip: Tip, c: u32)
    requires w.chain == Wcash && !RequiresSubmission(s) && !s.SideChain?
    ensures var out := ReconcileWcash(s, w, re);
            && (out == Got(Some(ToOrphaned(tip))) <==> Credited(s) && WcashSees(re, tip, NotBestChain))
            && (out == Got(Some(ToRequeued(tip))) <==> s.Quarantined? && WcashSees(re, tip, NotBestChain))
            && (out == Got(Some(ToQuarantined(tip))) <==> !s.Quarantined? && WcashSees(re, tip, WitnessConflict))
            && (out == Got(Some(ToObserved(tip, c))) <==>
                && WcashSees(re, tip, BestChain(c)) && Deep(tip, w, c) && !NoNews(s, w, tip, c)
                && (s.Observed? ==> c < w.maturity))
            && (out == Got(Some(ToMatured(tip, c))) <==>
                s.Observed? && WcashSees(re, tip, BestChain(c)) && Deep(tip, w, c) && c >= w.maturity)
  {
  }

  /** The rest of that pass: when nothing is recorded, and when it fails, which never blocks. */
  lemma {:induction false} WcashAuditRest(s: State, w: Winner, re: WcashReplies)
    requires w.chain == Wcash && !RequiresSubmission(s) && !s.SideChain?
    ensures var out := ReconcileWcash(s, w, re);
            && out != Failed(true)
            && (out == Failed(false) <==>
                !WcashAnswered(re)
                || (re.before == re.after && re.status.value.BestChain?
                    && !Deep(re.before.value, w, re.status.value.confirmations)))
            && (out == Got(None) <==>
                && WcashAnswered(re)
                && (|| re.before != re.after
                    || re.status.value.StillPending?
                    || (re.status.value.NotBestChain? && s.Orphaned?)
                    || (re.status.value.WitnessConflict? && s.Quarantined?)
                    || (re.status.value.BestChain? && Deep(re.before.value, w, re.status.value.confirmations)
                        && NoNews(s, w, re.before.value, re.status.value.confirmations))))
  {
  }

  /* ----- Wcash winners that need submission ----- */

  /** The canonical block at the winner's height is its own, witness included, or differs in the witness only. */
  predicate Canonically(w: Winner, re: WcashReplies, what: Canonical) {
    re.material.Ok? && re.before.Ok? && re.before.value.height >= w.height && re.canonical == Ok(what)
  }

  /** Exactly what one pass makes of a Wcash winner that needs submission, beside crediting it. */
  lemma {:induction false} WcashSubmitOutcome(s: State, w: Winner, re: WcashReplies, tip: Tip)
    requires w.chain == Wcash && RequiresSubmission(s)
    ensures var out := ReconcileWcash(s, w, re);
            && (out == Got(Some(ToQuarantined(tip))) <==>
                && re.before == re.after == Ok(tip)
                && (Canonically(w, re, OtherWitness) || (SubmitsWcash(s, w, re) && re.status == Ok(WitnessConflict))))
            && (out == Got(None) <==>
                || Canonically(w, re, DifferentBlock)
                || (re.after.Ok? && re.after != re.before
                    && (|| Canonically(w, re, OtherWitness)
                        || (Canonically(w, re, ExactBytes) && re.before.value.height - w.height < U32_MAX))))
            && (out.Got? && out.value.Some? ==> out.value.value.ToObserved? || out.value.value.ToQuarantined?)
            && (out.Failed? ==> out.blocked)
  {
  }

  /* ----- a Wcash reorganization is noticed ----- */

  /** A stable pass over a winner that needs no submission does not find its exact bytes on the best chain. */
  predicate WcashGone(s: State, re: WcashReplies) {
    && !RequiresSubmission(s) && WcashAnswered(re) && re.before == re.after
    && (re.status.value.NotBestChain? || re.status.value.WitnessConflict?)
  }

  lemma {:induction false} WcashGoneEndsCredit(s: State, w: Winner, re: WcashReplies)
    requires w.chain == Wcash && !s.SideChain? && WcashGone(s, re)
    ensures !Credited(WcashStep(s, w, re))
    ensures Credited(s) && re.status == Ok(NotBestChain) ==> WcashStep(s, w, re) == Orphaned(re.before.value)
    ensures Credited(s) && re.status == Ok(WitnessConflict) ==> WcashStep(s, w, re) == Quarantined(re.before.value)
  {
  }

  lemma {:induction false} AfterWcashGone(w: Winner, passes: seq<WcashReplies>, k: nat)
    requires w.chain == Wcash && k < |passes| && WcashGone(WcashRun(w, passes[..k]), passes[k])
    ensures !Credited(WcashRun(w, passes[..k + 1]))
  {
    WcashRunIsSane(w, passes[..k]);
    WcashGoneEndsCredit(WcashRun(w, passes[..k]), w, passes[k]);
    assert passes[..k + 1][..k] == passes[..k];
  }

  /** Over every run: a Wcash winner that is credited now entered credit after every such pass. */
  lemma {:induction false} WcashCreditIsNewerThanReorg(w: Winner, passes: seq<WcashReplies>, k: nat)
    requires w.chain == Wcash && k < |passes| && WcashGone(WcashRun(w, passes[..k]), passes[k])
    requires Credited(WcashRun(w, passes))
    ensures exists i :: k < i < |passes| && WcashEvidence(WcashRun(w, passes[..i]), w, passes[i])
                        && WcashCreditedSince(w, passes, i)
  {
    AfterWcashGone(w, passes, k);
    var i := WcashLastEntry(w, passes);
    assert i > k;
  }
}
