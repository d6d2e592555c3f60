/**
 One reconciliation pass over a winner, for arbitrary node replies.  A reward is recorded only on
 evidence: exact delivery or exact presence, sampled between two equal tips.
 */
module Reconcile {
  import opened Common
  import opened JournalRecord
  import opened Lifecycle

  /** A pass either finishes or fails, and a failure says whether winner delivery is blocked. */
  datatype Attempt<+T> = Got(value: T) | Failed(blocked: bool) {
    predicate IsFailure() { Failed? }

    function PropagateFailure<U>(): Attempt<U>
      requires Failed?
    { Failed(blocked) }

    function Extract(): T
      requires Got?
    { value }
  }

  function Or<T>(r: Result<T>, blocked: bool): Attempt<T> {
    match r case Ok(v) => Got(v) case Err => Failed(blocked)
  }

  /* ----- the submission report of the parent fan-out ----- */

  datatype NodeOutcome = Accepted | KnownSideChain | Unconfirmed | Rejected | Unreachable | InvalidResponse

  datatype Report = Report(outcomes: seq<NodeOutcome>, relaysDelivered: seq<bool>, pinnedAdmitted: bool)

  predicate Confirmed(r: Report) { Accepted in r.outcomes }
  predicate Relayed(r: Report) { forall i :: 0 <= i < |r.relaysDelivered| ==> r.relaysDelivered[i] }
  predicate Admitted(r: Report) { r.pinnedAdmitted || (r.relaysDelivered != [] && Relayed(r)) }
  predicate AllSideChain(r: Report) {
    r.outcomes != [] && forall i :: 0 <= i < |r.outcomes| ==> r.outcomes[i] == KnownSideChain
  }

  /** The exact block was confirmed by a node, admitted for gossip, and delivered to every relay. */
  predicate Delivered(r: Report) { Confirmed(r) && Admitted(r) && Relayed(r) }

  /** Progress means a confirmation or a known side chain; every other report is an error. */
  predicate Progressed(r: Report) { Confirmed(r) || AllSideChain(r) }

  /* ----- Zcash ----- */

  datatype TipPosition = ReadyForSubmission | ExactWinnerOnTemplateChain | Overtaken | DependencyBehind

  function TipPositionOf(tip: Tip, height: u32, previousHash: seq<byte>, exactOnTemplate: bool): Result<TipPosition> {
    if height == 0 then Err
    else if tip.height < height - 1 then Ok(DependencyBehind)
    else if tip.height == height - 1 && tip.hash == previousHash then Ok(ReadyForSubmission)
    else if tip.height >= height && exactOnTemplate then Ok(ExactWinnerOnTemplateChain)
    else Ok(Overtaken)
  }

  /** Everything that the nodes answer during one pass. */
  datatype ZcashReplies = ZcashReplies(
    previousHash: Result<seq<byte>>,     // the durable bytes validate, and name this predecessor
    redeliver: bool,                     // the redelivery cooldown has passed
    report: Result<Report>,
    identity: Result<()>,
    before: Result<Tip>,
    exactOnTemplate: Result<bool>,
    strictDepth: Result<Option<u32>>,
    depth: Result<Option<u32>>,
    after: Result<Tip>)

  predicate SubmissionBlocked(required: bool, submission: Option<Report>) {
    required && !(submission.Some? && (AllSideChain(submission.value) || Delivered(submission.value)))
  }

  /** A canonical position: the submission must have been relayed, admitted and confirmed. */
  function SubmissionSettled(position: TipPosition, submission: Option<Report>, blocked: bool): Attempt<bool> {
    if position.DependencyBehind? then Failed(true)
    else if submission.Some?
            && (!Relayed(submission.value) || (Confirmed(submission.value) && !Admitted(submission.value)))
      then Failed(true)
    else
      var blocked := (position.ReadyForSubmission? || position.ExactWinnerOnTemplateChain?) && blocked;
      if submission.Some? && !Progressed(submission.value) then Failed(blocked) else Got(blocked)
  }

  /** What a pass learns: an observation, or nothing because the tip moved; and whether delivery is still blocked. */
  datatype Learned = Learned(observation: Option<Observation>, blocked: bool)

  function ObserveZcash(s: State, w: Winner, re: ZcashReplies): Attempt<Learned> {
    var required := RequiresSubmission(s);
    var previousHash :- Or(re.previousHash, required);
    var submission :- if required || (s.Observed? && re.redeliver)
                      then (match re.report case Ok(r) => Got(Some(r)) case Err => Failed(required))
                      else Got(None);
    var blocked := SubmissionBlocked(required, submission);
    var _ :- Or(re.identity, blocked);
    var before :- Or(re.before, blocked);
    var position :- if !required then Got(Overtaken)
                    else
                      var exact :- Or(re.exactOnTemplate, blocked);
                      Or(TipPositionOf(before, w.height, previousHash, exact), blocked);
    var noncanonical := required && (position.Overtaken? || (submission.Some? && AllSideChain(submission.value)));
    var blocked :- if noncanonical then Got(false)
                   else if required then SubmissionSettled(position, submission, blocked)
                   else Got(blocked);
    var depth :- Or(if noncanonical || s.SideChain? then re.strictDepth else re.depth, blocked);
    var after :- Or(re.after, blocked);
    if before != after then (if blocked then Failed(true) else Got(Learned(None, blocked)))
    else
      Got(Learned(Some(match depth
                       case Some(c) => Present(before, c)
                       case None => if noncanonical then OnSideChain(before) else Absent(before)), blocked))
  }

  function ReconcileZcash(s: State, w: Winner, re: ZcashReplies): Attempt<Option<Transition>> {
    var learned :- ObserveZcash(s, w, re);
    if learned.observation.None? then Got(None) else Or(Decide(s, w, learned.observation.value), learned.blocked)
  }

  /** The winner lost its height, or every node holds it off the best chain. */
  predicate Noncanonical(w: Winner, re: ZcashReplies) {
    && re.before.Ok? && re.report.Ok?
    && (AllSideChain(re.report.value)
        || (re.previousHash.Ok? && re.exactOnTemplate.Ok?
            && TipPositionOf(re.before.value, w.height, re.previousHash.value, re.exactOnTemplate.value)
                == Ok(Overtaken)))
  }

  /** A pass that may turn a pending Zcash winner into a reward. */
  predicate ZcashEvidence(w: Winner, re: ZcashReplies, tip: Tip, c: u32) {
    && re.before == Ok(tip) && re.after == Ok(tip) && Depth(tip, w.height) == Ok(c)
    && re.report.Ok?
    && (if Noncanonical(w, re) then re.strictDepth == Ok(Some(c))
        else Delivered(re.report.value) && re.depth == Ok(Some(c)))
  }

  /**
   Delivery before credit.  For every sequence of replies a pending Zcash winner becomes Observed only
   between equal tips, and only if it was confirmed, admitted and relayed, or was noncanonical and the
   strict depth check still found it.  It never becomes Matured in one pass.
   */
  lemma {:induction false} DeliveryBeforeCredit(w: Winner, re: ZcashReplies)
    requires ReconcileZcash(Pending, w, re).Got? && ReconcileZcash(Pending, w, re).value.Some?
    ensures var t := ReconcileZcash(Pending, w, re).value.value;
            && !t.ToMatured? && !t.ToOrphaned? && !t.ToQuarantined? && !t.ToRequeued?
            && (t.ToObserved? ==> ZcashEvidence(w, re, t.tip, t.confirmations))
            && (t.ToSideChain? ==>
                Noncanonical(w, re) && re.before == re.after == Ok(t.tip) && re.strictDepth == Ok(None))
  {
    var report := re.report.value;
    if !Noncanonical(w, re) {
      assert Confirmed(report) ==> Admitted(report);
    }
  }

  /** Everything that a crediting pass needs from the nodes beside its evidence. */
  predicate Complete(w: Winner, re: ZcashReplies) {
    w.height > 0 && re.previousHash.Ok? && re.identity.Ok? && re.exactOnTemplate.Ok?
  }

  /** Evidence is not only necessary but enough: a pending winner is credited exactly when a complete pass has it. */
  lemma {:induction false} CreditedIffEvidence(w: Winner, re: ZcashReplies, tip: Tip, c: u32)
    ensures ReconcileZcash(Pending, w, re) == Got(Some(ToObserved(tip, c))) <==>
              Complete(w, re) && ZcashEvidence(w, re, tip, c)
  {
    if Complete(w, re) && ZcashEvidence(w, re, tip, c) && !Noncanonical(w, re) {
      assert !TipPositionOf(tip, w.height, re.previousHash.value, re.exactOnTemplate.value).value.DependencyBehind?;
    }
    if ReconcileZcash(Pending, w, re) == Got(Some(ToObserved(tip, c))) { DeliveryBeforeCredit(w, re); }
  }

  /** The sampled tip shows that another block took the winner's height. */
  predicate LostHeight(w: Winner, re: ZcashReplies) {
    re.before.Ok? && re.previousHash.Ok? && re.exactOnTemplate.Ok?
    && TipPositionOf(re.before.value, w.height, re.previousHash.value, re.exactOnTemplate.value) == Ok(Overtaken)
  }

  /** Undelivered winner bytes always block: nothing else in the replies can hide it, short of a lost height. */
  lemma {:induction false} UndeliveredBlocks(s: State, w: Winner, re: ZcashReplies)
    requires RequiresSubmission(s) && !LostHeight(w, re)
    requires !(re.report.Ok? && (AllSideChain(re.report.value) || Delivered(re.report.value)))
    ensures ReconcileZcash(s, w, re) == Failed(true)
  {
  }

  /** Only a pass over a pending or requeued winner can report that delivery is blocked. */
  lemma {:induction false} AuditsNeverBlock(s: State, w: Winner, re: ZcashReplies)
    requires ReconcileZcash(s, w, re) == Failed(true)
    ensures RequiresSubmission(s)
  {
  }

  predicate ZcashState(s: State) { !s.Quarantined? && !s.Requeued? }

  /** The side-chain refusal is never reached for a Zcash winner. */
  lemma {:induction false} SideChainNeverRefused(s: State, w: Winner, re: ZcashReplies)
    requires w.chain == Zcash && ZcashState(s)
    requires ObserveZcash(s, w, re).Got? && ObserveZcash(s, w, re).value.observation.Some?
    requires ObserveZcash(s, w, re).value.observation.value.OnSideChain?
    ensures s.Pending? && ReconcileZcash(s, w, re) == Got(Some(ToSideChain(re.before.value)))
  {
  }

  function ZcashStep(s: State, w: Winner, re: ZcashReplies): State {
    match ReconcileZcash(s, w, re)
    case Got(Some(t)) => (match Persist(s, w, t) case Ok(s') => s' case Err => s)
    case _ => s
  }

  function ZcashRun(w: Winner, passes: seq<ZcashReplies>): State {
    if passes == [] then Pending else ZcashStep(ZcashRun(w, passes[..|passes| - 1]), w, passes[|passes| - 1])
  }

  /** The winner has been credited at some time. */
  predicate EverCredited(s: State) { s.Observed? || s.Matured? || s.Orphaned? }

  /** The pass by which a winner is first credited, from Pending or from side-chain monitoring. */
  predicate CreditingPass(s: State, w: Winner, re: ZcashReplies) {
    match ReconcileZcash(s, w, re)
    case Got(Some(ToObserved(tip, c))) =>
      (s.Pending? && ZcashEvidence(w, re, tip, c))
      || (s.SideChain? && re.before == re.after == Ok(tip) && re.strictDepth == Ok(Some(c))
          && Depth(tip, w.height) == Ok(c))
    case _ => false
  }

  lemma {:induction false} ZcashStepSafe(s: State, w: Winner, re: ZcashReplies)
    requires w.chain == Zcash && Sane(s, w)
    ensures Sane(ZcashStep(s, w, re), w)
    ensures ReconcileZcash(s, w, re).Got? && ReconcileZcash(s, w, re).value.Some? ==>
              Persist(s, w, ReconcileZcash(s, w, re).value.value) == Ok(ZcashStep(s, w, re))
    ensures ZcashStep(s, w, re).Matured? && !s.Matured? ==> s.Observed?
    ensures !EverCredited(s) && EverCredited(ZcashStep(s, w, re)) ==> CreditingPass(s, w, re)
    ensures EverCredited(s) ==> EverCredited(ZcashStep(s, w, re))
  {
    if ReconcileZcash(s, w, re).Got? && ReconcileZcash(s, w, re).value.Some? {
      var o := ObserveZcash(s, w, re).value.observation.value;
      DecisionsAreRecorded(s, w, o);
      SaneStep(s, w, o);
      if s.Pending? { DeliveryBeforeCredit(w, re); }
    }
  }

  /** The winner counts as a reward now. */
  predicate Credited(s: State) { s.Observed? || s.Matured? }

  /** The pass by which a winner enters credit, for the first time or again after it was orphaned. */
  predicate ZcashEntry(s: State, w: Winner, re: ZcashReplies) {
    && !Credited(s) && re.before.Ok? && re.before == re.after && Depth(re.before.value, w.height).Ok?
    && var tip, c := re.before.value, Depth(re.before.value, w.height).value;
       && (s.Pending? ==> ZcashEvidence(w, re, tip, c))
       && (s.SideChain? ==> re.strictDepth == Ok(Some(c)))
       && (s.Orphaned? ==> re.depth == Ok(Some(c)))
  }

  lemma {:induction false} ZcashEnters(s: State, w: Winner, re: ZcashReplies)
    requires w.chain == Zcash && Sane(s, w) && ZcashState(s) && !Credited(s) && Credited(ZcashStep(s, w, re))
    ensures ZcashEntry(s, w, re)
  {
    ZcashStepSafe(s, w, re);
    if s.Pending? { DeliveryBeforeCredit(w, re); }
  }

  predicate ZcashCreditedSince(w: Winner, passes: seq<ZcashReplies>, i: nat) {
    forall k :: i < k <= |passes| ==> Credited(ZcashRun(w, passes[..k]))
  }

  /** The pass by which a credited winner last entered credit. */
  lemma {:induction false} ZcashLastEntry(w: Winner, passes: seq<ZcashReplies>) returns (i: nat)
    requires w.chain == Zcash && Credited(ZcashRun(w, passes))
    ensures i < |passes| && ZcashEntry(ZcashRun(w, passes[..i]), w, passes[i]) && ZcashCreditedSince(w, passes, i)
  {
    var n := |passes| - 1;
    assert passes[..n + 1] == passes;
    if Credited(ZcashRun(w, passes[..n])) {
      i := ZcashLastEntry(w, passes[..n]);
      assert passes[..n][..i] == passes[..i];
      forall k | i < k <= |passes| ensures Credited(ZcashRun(w, passes[..k])) {
        if k <= n { assert passes[..n][..k] == passes[..k]; }
      }
    } else {
      ZcashRunIsSane(w, passes[..n]);
      ZcashEnters(ZcashRun(w, passes[..n]), w, passes[n]);
      i := n;
    }
  }

  lemma {:induction false} ZcashRunIsSane(w: Winner, passes: seq<ZcashReplies>)
    requires w.chain == Zcash
    ensures Sane(ZcashRun(w, passes), w) && ZcashState(ZcashRun(w, passes))
  {
    if passes == [] {
    } else {
      var n := |passes| - 1;
      ZcashRunIsSane(w, passes[..n]);
      ZcashStepSafe(ZcashRun(w, passes[..n]), w, passes[n]);
    }
  }

  lemma {:induction false} ZcashFirstCredit(w: Winner, passes: seq<ZcashReplies>) returns (i: nat)
    requires w.chain == Zcash && EverCredited(ZcashRun(w, passes))
    ensures i < |passes| && CreditingPass(ZcashRun(w, passes[..i]), w, passes[i])
  {
    var n := |passes| - 1;
    if EverCredited(ZcashRun(w, passes[..n])) {
      i := ZcashFirstCredit(w, passes[..n]);
      assert passes[..n][..i] == passes[..i];
    } else {
      ZcashRunIsSane(w, passes[..n]);
      ZcashStepSafe(ZcashRun(w, passes[..n]), w, passes[n]);
      i := n;
    }
  }

  /**
   Over every run, a Zcash winner is first credited only by a pass with delivery evidence.  Whenever it is
   credited, the pass by which it last entered credit had evidence, and it stayed credited since then.
   */
  lemma {:induction false} ZcashRunsAreSafe(w: Winner, passes: seq<ZcashReplies>)
    requires w.chain == Zcash
    ensures Sane(ZcashRun(w, passes), w) && ZcashState(ZcashRun(w, passes))
    ensures EverCredited(ZcashRun(w, passes)) ==>
              exists i :: 0 <= i < |passes| && CreditingPass(ZcashRun(w, passes[..i]), w, passes[i])
    ensures Credited(ZcashRun(w, passes)) ==>
              exists i: nat :: i < |passes| && ZcashEntry(ZcashRun(w, passes[..i]), w, passes[i])
                               && ZcashCreditedSince(w, passes, i)
  {
    ZcashRunIsSane(w, passes);
    if EverCredited(ZcashRun(w, passes)) { var i := ZcashFirstCredit(w, passes); }
    if Credited(ZcashRun(w, passes)) { var i := ZcashLastEntry(w, passes); }
  }

  /* ----- Wcash ----- */

  datatype Canonical = DifferentBlock | ExactBytes | OtherWitness

  datatype Preflight = BelowTip | Occupied | Exact | Conflict

  datatype Status = BestChain(confirmations: u32) | NotBestChain | WitnessConflict | StillPending

  /** Everything that the node answers during one pass. */
  datatype WcashReplies = WcashReplies(
    material: Result<()>,
    before: Result<Tip>,
    canonical: Result<Canonical>,        // the canonical block at the winner's height, compared byte by byte
    status: Result<Status>,
    after: Result<Tip>)

  function PreflightOf(w: Winner, before: Tip, canonical: Result<Canonical>): Result<Preflight> {
    if before.height < w.height then Ok(BelowTip)
    else
      var c :- canonical;
      match c
      case DifferentBlock => Ok(Occupied)
      case ExactBytes => Ok(Exact)
      case OtherWitness => Ok(Conflict)
  }

  function StatusObservation(status: Status, tip: Tip): Observation {
    match status
    case BestChain(c) => Present(tip, c)
    case NotBestChain => Absent(tip)
    case WitnessConflict => ConflictingWitness(tip)
    case StillPending => Unavailable
  }

  function ReconcileWcash(s: State, w: Winner, re: WcashReplies): Attempt<Option<Transition>> {
    var required := RequiresSubmission(s);
    var _ :- Or(re.material, required);
    var before :- Or(re.before, required);
    var preflight :- if required then Or(PreflightOf(w, before, re.canonical), true) else Got(BelowTip);
    if preflight.Occupied? then Got(None)
    else
      var submitted := required && preflight.BelowTip?;
      var observation :-
        match preflight
        case Conflict => Got(ConflictingWitness(before))
        case Exact => (match Depth(before, w.height) case Ok(c) => Got(Present(before, c)) case Err => Failed(required))
        case _ =>
          (match re.status case Ok(status) => Got(StatusObservation(status, before)) case Err => Failed(required));
      var after :- Or(re.after, required);
      if before != after then (if submitted then Failed(true) else Got(None))
      else if submitted && !observation.Present? && !observation.ConflictingWitness? then Failed(required)
      else Or(Decide(s, w, observation), required)
  }

  /** The pass sends the winner's bytes to the node. */
  predicate SubmitsWcash(s: State, w: Winner, re: WcashReplies) {
    RequiresSubmission(s) && re.material.Ok? && re.before.Ok? && re.before.value.height < w.height
  }

  /**
   A pass that submits a Wcash winner never credits it: it ends in an error, or in quarantine.  So a
   winner that still needs submission is credited only by a later pass that finds its exact bytes canonical.
   */
  lemma {:induction false} SubmittingNeverCredits(s: State, w: Winner, re: WcashReplies)
    requires SubmitsWcash(s, w, re)
    ensures ReconcileWcash(s, w, re).Failed?
            || (re.status == Ok(WitnessConflict)
                && ReconcileWcash(s, w, re) == Got(Some(ToQuarantined(re.before.value))))
  {
  }

  /** A winner that still needs submission is credited exactly when its own bytes are canonical between equal tips. */
  lemma {:induction false} WcashCreditedIffCanonical(s: State, w: Winner, re: WcashReplies, tip: Tip, c: u32)
    requires RequiresSubmission(s)
    ensures ReconcileWcash(s, w, re) == Got(Some(ToObserved(tip, c))) <==>
            && re.material.Ok? && re.before == Ok(tip) && re.after == Ok(tip)
            && tip.height >= w.height && re.canonical == Ok(ExactBytes) && Depth(tip, w.height) == Ok(c)
  {
  }

  lemma {:induction false} WcashCreditNeedsExactBytes(s: State, w: Winner, re: WcashReplies, tip: Tip, c: u32)
    requires ReconcileWcash(s, w, re) == Got(Some(ToObserved(tip, c)))
    ensures re.before == Ok(tip) && re.after == Ok(tip) && Depth(tip, w.height) == Ok(c)
    ensures RequiresSubmission(s) ==> re.canonical == Ok(ExactBytes)
    ensures !RequiresSubmission(s) ==> re.status == Ok(BestChain(c))
  {
  }

  function WcashStep(s: State, w: Winner, re: WcashReplies): State {
    match ReconcileWcash(s, w, re)
    case Got(Some(t)) => (match Persist(s, w, t) case Ok(s') => s' case Err => s)
    case _ => s
  }

  function WcashRun(w: Winner, passes: seq<WcashReplies>): State {
    if passes == [] then Pending else WcashStep(WcashRun(w, passes[..|passes| - 1]), w, passes[|passes| - 1])
  }

  /** The observation that a finished pass acted on. */
  function WcashObservation(s: State, w: Winner, re: WcashReplies): Observation
    requires re.before.Ok?
  {
    var before := re.before.value;
    if RequiresSubmission(s) && before.height >= w.height && re.canonical == Ok(OtherWitness)
      then ConflictingWitness(before)
    else if RequiresSubmission(s) && before.height >= w.height && Depth(before, w.height).Ok?
      then Present(before, Depth(before, w.height).value)
    else if re.status.Ok? then StatusObservation(re.status.value, before)
    else Unavailable
  }

  lemma {:induction false} WcashDecides(s: State, w: Winner, re: WcashReplies)
    requires ReconcileWcash(s, w, re).Got? && ReconcileWcash(s, w, re).value.Some?
    ensures re.before.Ok? && Decide(s, w, WcashObservation(s, w, re)) == Ok(ReconcileWcash(s, w, re).value)
  {
  }

  lemma {:induction false} WcashStepSafe(s: State, w: Winner, re: WcashReplies)
    requires w.chain == Wcash && Sane(s, w)
    ensures Sane(WcashStep(s, w, re), w)
    ensures ReconcileWcash(s, w, re).Got? && ReconcileWcash(s, w, re).value.Some? ==>
              Persist(s, w, ReconcileWcash(s, w, re).value.value) == Ok(WcashStep(s, w, re))
  {
    if ReconcileWcash(s, w, re).Got? && ReconcileWcash(s, w, re).value.Some? {
      WcashDecides(s, w, re);
      DecisionsAreRecorded(s, w, WcashObservation(s, w, re));
      SaneStep(s, w, WcashObservation(s, w, re));
    }
  }

  /**
   A pass by which a winner enters credit: on the best chain between equal tips, by its exact bytes while it
   still needs submission, and by its exact-witness status when it comes from quarantine or was orphaned.
   */
  predicate WcashEvidence(s: State, w: Winner, re: WcashReplies) {
    && !Credited(s) && re.before.Ok? && re.before == re.after && Depth(re.before.value, w.height).Ok?
    && (if RequiresSubmission(s) then re.canonical == Ok(ExactBytes)
        else (s.Quarantined? || s.Orphaned?) && re.status == Ok(BestChain(Depth(re.before.value, w.height).value)))
  }

  lemma {:induction false} WcashEnters(s: State, w: Winner, re: WcashReplies)
    requires w.chain == Wcash && Sane(s, w) && !s.SideChain? && !Credited(s) && Credited(WcashStep(s, w, re))
    ensures WcashEvidence(s, w, re)
  {
    WcashStepSafe(s, w, re);
    var t := ReconcileWcash(s, w, re).value.value;
    assert t.ToObserved?;
    WcashCreditNeedsExactBytes(s, w, re, t.tip, t.confirmations);
  }

  lemma {:induction false} WcashRunIsSane(w: Winner, passes: seq<WcashReplies>)
    requires w.chain == Wcash
    ensures Sane(WcashRun(w, passes), w) && !WcashRun(w, passes).SideChain?
  {
    if passes == [] {
    } else {
      var n := |passes| - 1;
      WcashRunIsSane(w, passes[..n]);
      WcashStepSafe(WcashRun(w, passes[..n]), w, passes[n]);
    }
  }

  predicate WcashCreditedSince(w: Winner, passes: seq<WcashReplies>, i: nat) {
    forall k :: i < k <= |passes| ==> Credited(WcashRun(w, passes[..k]))
  }

  /** The pass by which a credited winner last entered credit. */
  lemma {:induction false} WcashLastEntry(w: Winner, passes: seq<WcashReplies>) returns (i: nat)
    requires w.chain == Wcash && Credited(WcashRun(w, passes))
    ensures i < |passes| && WcashEvidence(WcashRun(w, passes[..i]), w, passes[i]) && WcashCreditedSince(w, passes, i)
  {
    var n := |passes| - 1;
    assert passes[..n + 1] == passes;
    if Credited(WcashRun(w, passes[..n])) {
      i := WcashLastEntry(w, passes[..n]);
      assert passes[..n][..i] == passes[..i];
      forall k | i < k <= |passes| ensures Credited(WcashRun(w, passes[..k])) {
        if k <= n { assert passes[..n][..k] == passes[..k]; }
      }
    } else {
      WcashRunIsSane(w, passes[..n]);
      WcashEnters(WcashRun(w, passes[..n]), w, passes[n]);
      i := n;
    }
  }

  lemma {:induction false} WcashFirstCredit(w: Winner, passes: seq<WcashReplies>) returns (i: nat)
    requires w.chain == Wcash && EverCredited(WcashRun(w, passes))
    ensures i < |passes| && !EverCredited(WcashRun(w, passes[..i]))
              && WcashEvidence(WcashRun(w, passes[..i]), w, passes[i])
  {
    var n := |passes| - 1;
    if EverCredited(WcashRun(w, passes[..n])) {
      i := WcashFirstCredit(w, passes[..n]);
      assert passes[..n][..i] == passes[..i];
    } else {
      WcashRunIsSane(w, passes[..n]);
      WcashStepSafe(WcashRun(w, passes[..n]), w, passes[n]);
      WcashEnters(WcashRun(w, passes[..n]), w, passes[n]);
      i := n;
    }
  }

  /**
   Over every run, a Wcash winner is never side-chained and is credited only after a pass with evidence.
   Whenever it is credited, also again after a quarantine, the pass by which it last entered credit had
   evidence, and it stayed credited since then.
   */
  lemma {:induction false} WcashRunsAreSafe(w: Winner, passes: seq<WcashReplies>)
    requires w.chain == Wcash
    ensures Sane(WcashRun(w, passes), w) && !WcashRun(w, passes).SideChain?
    ensures EverCredited(WcashRun(w, passes)) ==>
              exists i :: 0 <= i < |passes| && !EverCredited(WcashRun(w, passes[..i]))
                          && WcashEvidence(WcashRun(w, passes[..i]), w, passes[i])
    ensures Credited(WcashRun(w, passes)) ==>
              exists i: nat :: i < |passes| && WcashEvidence(WcashRun(w, passes[..i]), w, passes[i])
                               && WcashCreditedSince(w, passes, i)
  {
    WcashRunIsSane(w, passes);
    if EverCredited(WcashRun(w, passes)) { var i := WcashFirstCredit(w, passes); }
    if Credited(WcashRun(w, passes)) { var i := WcashLastEntry(w, passes); }
  }
}
