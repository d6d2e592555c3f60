/** The life of a block winner: how an observation of the chain moves it, and what every run keeps. */
module Lifecycle {
  import opened Common
  import opened JournalRecord

  datatype Tip = Tip(hash: seq<byte>, height: u32)

  datatype Winner = Winner(chain: Chain, height: u32, maturity: u32)

  datatype State =
    | Pending
    | SideChain(tip: Tip)
    | Observed(tip: Tip, confirmations: u32)
    | Matured(tip: Tip, confirmations: u32)
    | Orphaned(tip: Tip)
    | Quarantined(tip: Tip)
    | Requeued(tip: Tip)

  /** A lifecycle change that reconciliation asks the journal to record. */
  datatype Transition =
    | ToSideChain(tip: Tip)
    | ToObserved(tip: Tip, confirmations: u32)
    | ToMatured(tip: Tip, confirmations: u32)
    | ToOrphaned(tip: Tip)
    | ToQuarantined(tip: Tip)
    | ToRequeued(tip: Tip)

  datatype Observation =
    | Unavailable
    | OnSideChain(tip: Tip)
    | Absent(tip: Tip)
    | ConflictingWitness(tip: Tip)
    | Present(tip: Tip, confirmations: u32)

  predicate RequiresSubmission(s: State) { s.Pending? || s.Requeued? }

  /** The depth of a block at `height` below a tip, with 32-bit checked arithmetic. */
  function Depth(tip: Tip, height: u32): Result<u32> {
    if tip.height < height || tip.height - height + 1 > U32_MAX then Err else Ok(tip.height - height + 1)
  }

  /** The transition that an observation calls for, if any. */
  function Decide(s: State, w: Winner, o: Observation): Result<Option<Transition>> {
    match o
    case Unavailable => Ok(None)
    case OnSideChain(tip) => if w.chain != Zcash || !s.Pending? then Err else Ok(Some(ToSideChain(tip)))
    case Absent(tip) =>
      if s.Observed? || s.Matured? then Ok(Some(ToOrphaned(tip)))
      else if s.Quarantined? then Ok(Some(ToRequeued(tip)))
      else Ok(None)
    case ConflictingWitness(tip) =>
      if w.chain != Wcash then Err
      else if s.Quarantined? then Ok(None)
      else Ok(Some(ToQuarantined(tip)))
    case Present(tip, c) =>
      var expected :- Depth(tip, w.height);
      if c != expected then Err
      else
        match s
        case Matured(_, _) => if c < w.maturity then Ok(Some(ToObserved(tip, c))) else Ok(None)
        case Observed(previousTip, previous) =>
          if c >= w.maturity then Ok(Some(ToMatured(tip, c)))
          else if c == previous && tip == previousTip then Ok(None)
          else Ok(Some(ToObserved(tip, c)))
        case _ => Ok(Some(ToObserved(tip, c)))
  }

  /** The journal's own rule for recording a transition. */
  function Persist(s: State, w: Winner, t: Transition): Result<State> {
    match t
    case ToSideChain(tip) => if w.chain != Zcash || !s.Pending? then Err else Ok(SideChain(tip))
    case ToObserved(tip, c) => if s.Matured? && c >= w.maturity then Err else Ok(Observed(tip, c))
    case ToOrphaned(tip) => if s.Observed? || s.Matured? then Ok(Orphaned(tip)) else Err
    case ToQuarantined(tip) => if s.Quarantined? then Err else Ok(Quarantined(tip))
    case ToRequeued(tip) => if s.Quarantined? then Ok(Requeued(tip)) else Err
    case ToMatured(tip, c) => if s.Observed? then Ok(Matured(tip, c)) else Err
  }

  /** The state after one observation: an error or no transition leaves it as it was. */
  function After(s: State, w: Winner, o: Observation): State {
    match Decide(s, w, o)
    case Ok(Some(t)) => (match Persist(s, w, t) case Ok(s') => s' case Err => s)
    case _ => s
  }

  function RunFrom(s: State, w: Winner, os: seq<Observation>): State {
    if os == [] then s else After(RunFrom(s, w, os[..|os| - 1]), w, os[|os| - 1])
  }

  /** What holds of a winner in every run. */
  predicate Sane(s: State, w: Winner) {
    match s
    case Pending => true
    case SideChain(_) => w.chain == Zcash
    case Observed(tip, c) => Depth(tip, w.height) == Ok(c)
    case Matured(tip, c) => Depth(tip, w.height) == Ok(c) && c >= w.maturity
    case Orphaned(_) => true
    case Quarantined(_) => w.chain == Wcash
    case Requeued(_) => w.chain == Wcash
  }

  /** Whatever reconciliation decides, the journal records it, in the state of the same name. */
  lemma {:induction false} DecisionsAreRecorded(s: State, w: Winner, o: Observation)
    requires Decide(s, w, o).Ok? && Decide(s, w, o).value.Some?
    ensures Persist(s, w, Decide(s, w, o).value.value) == Ok(After(s, w, o))
    ensures After(s, w, o) != s
  {
    var t := Decide(s, w, o).value.value;
    assert Persist(s, w, t).Ok?;
  }

  lemma {:induction false} SaneStep(s: State, w: Winner, o: Observation)
    requires Sane(s, w)
    ensures Sane(After(s, w, o), w)
    ensures After(s, w, o).Matured? && !s.Matured? ==> s.Observed?
    ensures After(s, w, o).SideChain? && !s.SideChain? ==> s.Pending?
    ensures After(s, w, o).Pending? ==> s.Pending?
  {
    if Decide(s, w, o).Ok? && Decide(s, w, o).value.Some? { DecisionsAreRecorded(s, w, o); }
  }

  /**
   What an accepted observation leaves behind.  Presence is recorded with its exact depth, and is spendable
   exactly from the second look at or above the threshold; below the threshold spendability is revoked.
   Absence and a conflicting witness leave nothing credited.
   */
  lemma {:induction false} ObservationTakesEffect(s: State, w: Winner, o: Observation)
    requires Decide(s, w, o).Ok?
    ensures var t := After(s, w, o);
            match o
            case Unavailable => t == s
            case OnSideChain(tip) => t == SideChain(tip)
            case Absent(_) => !t.Observed? && !t.Matured? && !t.Quarantined?
                              && (t.Orphaned? <==> s.Observed? || s.Matured? || s.Orphaned?)
            case ConflictingWitness(_) => t.Quarantined?
            case Present(tip, c) =>
              && Depth(tip, w.height) == Ok(c)
              && (t.Matured? <==> c >= w.maturity && (s.Observed? || s.Matured?))
              && (!t.Matured? ==> t == Observed(tip, c))
              && (t.Matured? ==> t == s || t == Matured(tip, c))
  {
    if Decide(s, w, o).value.Some? { DecisionsAreRecorded(s, w, o); }
  }

  /** Lifecycle safety over every run of observations of a winner that starts pending. */
  lemma {:induction false} RunsAreSane(w: Winner, os: seq<Observation>)
    ensures Sane(RunFrom(Pending, w, os), w)
  {
    if os == [] {
    } else {
      RunsAreSane(w, os[..|os| - 1]);
      SaneStep(RunFrom(Pending, w, os[..|os| - 1]), w, os[|os| - 1]);
    }
  }

  /** The winner was matured throughout the run after its observation number `i`. */
  predicate MaturedSince(w: Winner, os: seq<Observation>, i: nat) {
    forall k :: i < k <= |os| ==> RunFrom(Pending, w, os[..k]).Matured?
  }

  lemma {:induction false} MaturedFromObserved(w: Winner, os: seq<Observation>) returns (i: nat)
    requires RunFrom(Pending, w, os).Matured?
    ensures i < |os| && RunFrom(Pending, w, os[..i]).Observed? && MaturedSince(w, os, i)
  {
    var n := |os| - 1;
    RunsAreSane(w, os[..n]);
    SaneStep(RunFrom(Pending, w, os[..n]), w, os[n]);
    assert os[..n + 1] == os;
    if RunFrom(Pending, w, os[..n]).Matured? {
      i := MaturedFromObserved(w, os[..n]);
      assert os[..n][..i] == os[..i];
      forall k | i < k <= |os| ensures RunFrom(Pending, w, os[..k]).Matured? {
        if k <= n { assert os[..n][..k] == os[..k]; }
      }
    } else {
      i := n;
    }
  }

  /**
   Maturity is earned: a matured winner has exactly the confirmations of its tip, at least the threshold,
   and it entered this state from Observed, never straight from Pending or any other state.
   */
  lemma {:induction false} MaturityIsEarned(w: Winner, os: seq<Observation>)
    requires RunFrom(Pending, w, os).Matured?
    ensures var s := RunFrom(Pending, w, os);
            s.confirmations == s.tip.height - w.height + 1 >= w.maturity
    ensures exists i: nat :: i < |os| && RunFrom(Pending, w, os[..i]).Observed? && MaturedSince(w, os, i)
  {
    RunsAreSane(w, os);
    var i := MaturedFromObserved(w, os);
  }

  /** Repeating an accepted observation settles after two steps, except for the side-chain one. */
  lemma {:induction false} SettlesInTwo(s: State, w: Winner, o: Observation)
    requires Decide(s, w, o).Ok? && !o.OnSideChain?
    ensures Decide(After(After(s, w, o), w, o), w, o) == Ok(None)
  {
    var s1 := After(s, w, o);
    var s2 := After(s1, w, o);
    if o.Present? {
      assert s1.Observed? || s1.Matured?;
      assert s2.Observed? || s2.Matured?;
    }
  }

  /** The side-chain observation is the one that is refused when it is repeated. */
  lemma {:induction false} SideChainIsRefusedTwice(s: State, w: Winner, o: Observation)
    requires Decide(s, w, o).Ok?
    ensures Decide(After(s, w, o), w, o).Err? <==> o.OnSideChain?
  {
    if o.Present? { assert After(s, w, o).Observed? || After(s, w, o).Matured?; }
  }

  /** Once the same observation changes nothing, it never will again. */
  lemma {:induction false} SettledForever(s: State, w: Winner, o: Observation, n: nat)
    requires Decide(s, w, o).Ok? && !o.OnSideChain?
    ensures RunFrom(s, w, seq(n + 2, i => o)) == After(After(s, w, o), w, o)
  {
    var os := seq(n + 2, i => o);
    assert os[..|os| - 1] == seq(n + 1, i => o);
    if n == 0 {
      assert os[..1] == [o] && [o][..0] == [] && os[..1][..0] == [];
      assert RunFrom(s, w, [o]) == After(s, w, o);
    } else {
      SettledForever(s, w, o, n - 1);
      SettlesInTwo(s, w, o);
    }
  }
}
