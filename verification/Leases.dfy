/**
 Custody of child-candidate leases.  Every lease that the node hands out is held by exactly one
 owner: a coordinator, a prefetched child, the single retry slot, or nobody any more.
 */
module Leases {
  import opened Common

  datatype Lease = Lease(hash: string, retireToken: string)

  /** Who holds which lease, and two things that must never happen. */
  datatype Custody = Custody(
    created: set<Lease>,
    coordinators: set<Lease>,
    children: set<Lease>,
    slot: Option<Lease>,
    retired: set<Lease>,
    overwrites: nat,          // stores into an occupied slot
    unsafeCreates: nat)       // candidate requests made while the slot was occupied

  const EMPTY := Custody({}, {}, {}, None, {}, 0, 0)

  /** How the nodes answer during one preparation. */
  datatype Script = Script(
    lock: bool,               // the preparation lock can be taken
    unexpired: bool,           // a prefetched child has not expired yet
    identity: bool,           // network identity and outbox recovery succeed
    retry: bool,              // retiring the slot's lease succeeds
    parentReady: bool,        // the parent network is ready
    create: Option<Lease>,    // the candidate that the node hands out
    candidateValid: bool,     // it passes validation
    candidateRetire: bool,    // retiring an invalid candidate succeeds
    built: bool,              // the parent job, the tip fences and the activation succeed
    guardRetire: bool)        // retiring on the way out succeeds

  function SlotSet(slot: Option<Lease>): set<Lease> { if slot.Some? then {slot.value} else {} }

  /** Every created lease has exactly one owner; `hand` is what the running operation holds. */
  predicate Held(c: Custody, hand: set<Lease>) {
    && c.created == c.coordinators + c.children + SlotSet(c.slot) + c.retired + hand
    && c.coordinators !! c.children !! SlotSet(c.slot) !! c.retired !! hand
  }

  predicate Balanced(c: Custody) { Held(c, {}) && c.overwrites == 0 && c.unsafeCreates == 0 }

  /** The documented discipline: at most one prefetched child, and an empty slot while there is one. */
  predicate Disciplined(c: Custody) { c.children != {} ==> c.slot.None? && |c.children| == 1 }

  /* ----- the operations on values ----- */

  function RetireFailed(c: Custody, l: Lease, ok: bool): Custody {
    if ok then c.(retired := c.retired + {l})
    else c.(slot := Some(l), overwrites := c.overwrites + if c.slot.Some? then 1 else 0)
  }

  function DropGuard(c: Custody, guard: Option<Lease>, ok: bool): Custody {
    if guard.Some? then RetireFailed(c, guard.value, ok) else c
  }

  function RetrySlot(c: Custody, ok: bool): (Custody, bool) {
    if c.slot.None? then (c, true)
    else if ok then (c.(slot := None, retired := c.retired + {c.slot.value}), true)
    else (c, false)
  }

  /** Requests a candidate; an invalid one is given back at once. */
  function Acquire(c: Custody, s: Script): (Custody, Option<Lease>) {
    var c := c.(unsafeCreates := c.unsafeCreates + if c.slot.Some? then 1 else 0);
    match s.create
    case None => (c, None)
    case Some(l) =>
      var c := c.(created := c.created + {l});
      if s.candidateValid then (c, Some(l)) else (RetireFailed(c, l, s.candidateRetire), None)
  }

  function Prefetch(c: Custody, s: Script): Custody {
    if !s.lock || !s.identity then c
    else
      var (c, ok) := RetrySlot(c, s.retry);
      if !ok then c
      else
        var (c, got) := Acquire(c, s);
        if got.None? then c else c.(children := c.children + {got.value})
  }

  /** The body of a preparation, and the lease that its guard still holds at the end. */
  function PrepareBody(c: Custody, child: Option<Lease>, s: Script): (Custody, Option<Lease>) {
    if !s.lock || (child.Some? && !s.unexpired) || !s.identity then (c, child)
    else
      var (c, ok) := RetrySlot(c, s.retry);
      if !ok || !s.parentReady then (c, child)
      else
        var (c, got) := if child.Some? then (c, child) else Acquire(c, s);
        if got.None? then (c, None)
        else if !s.built then (c, got)
        else (c.(coordinators := c.coordinators + {got.value}), None)
  }

  function Prepare(c: Custody, child: Option<Lease>, s: Script): Custody {
    var (c, guard) := PrepareBody(c, child, s);
    DropGuard(c, guard, s.guardRetire)
  }

  /** Uses up a prefetched child, which leaves its holder first. */
  function Consume(c: Custody, l: Lease, s: Script): Custody {
    Prepare(c.(children := c.children - {l}), Some(l), s)
  }

  function RetireChild(c: Custody, l: Lease, ok: bool): Custody {
    if ok && l in c.children then c.(children := c.children - {l}, retired := c.retired + {l}) else c
  }

  function RetireGeneration(c: Custody, l: Lease, ok: bool): Custody {
    if ok && l in c.coordinators then c.(coordinators := c.coordinators - {l}, retired := c.retired + {l}) else c
  }

  /* ----- one operation ----- */

  lemma {:induction false} RetireFailedHeld(c: Custody, l: Lease, ok: bool)
    requires Held(c, {l}) && c.overwrites == 0 && c.unsafeCreates == 0 && c.slot.None?
    ensures Balanced(RetireFailed(c, l, ok))
  {
  }

  /** A lease in hand that is retired or kept leaves every lease with one owner unless it is stored over another. */
  lemma {:induction false} RetireFailedHeldIff(c: Custody, l: Lease, ok: bool)
    requires Held(c, {l})
    ensures Held(RetireFailed(c, l, ok), {}) <==> ok || c.slot.None?
  {
    if !ok && c.slot.Some? {
      var lost := c.slot.value;
      assert lost in SlotSet(c.slot) && lost in c.created;
      var c' := RetireFailed(c, l, ok);
      assert lost !in c'.coordinators + c'.children + SlotSet(c'.slot) + c'.retired;
    }
  }

  lemma {:induction false} RetrySlotHeld(c: Custody, hand: set<Lease>, ok: bool)
    requires Held(c, hand)
    ensures Held(RetrySlot(c, ok).0, hand)
    ensures RetrySlot(c, ok).1 ==> RetrySlot(c, ok).0.slot.None?
    ensures c.slot.None? ==> RetrySlot(c, ok) == (c, true)
  {
    if c.slot.Some? && ok {
      var c' := RetrySlot(c, ok).0;
      assert c'.coordinators + c'.children + SlotSet(c'.slot) + c'.retired
          == c.coordinators + c.children + SlotSet(c.slot) + c.retired;
    }
  }

  lemma {:induction false} AcquireHeld(c: Custody, s: Script)
    requires Balanced(c) && c.slot.None? && (s.create.Some? ==> s.create.value !in c.created)
    ensures var (c', got) := Acquire(c, s);
            && c'.overwrites == 0 && c'.unsafeCreates == 0
            && c'.children == c.children && c'.coordinators == c.coordinators
            && (got.None? ==> Balanced(c'))
            && (got.Some? ==> Held(c', {got.value}) && c'.slot.None?)
  {
    if s.create.Some? && !s.candidateValid {
      RetireFailedHeld(c.(created := c.created + {s.create.value}), s.create.value, s.candidateRetire);
    }
  }

  /** A preparation without a prefetched child keeps every lease, whatever fails. */
  lemma {:induction false} BaselineBalanced(c: Custody, s: Script)
    requires Balanced(c) && (s.create.Some? ==> s.create.value !in c.created)
    ensures Balanced(Prepare(c, None, s)) && Prepare(c, None, s).children == c.children
  {
    RetrySlotHeld(c, {}, s.retry);
    var (c1, ok) := RetrySlot(c, s.retry);
    if s.lock && s.identity && ok && s.parentReady {
      AcquireHeld(c1, s);
      var (c2, got) := Acquire(c1, s);
      if got.Some? && !s.built { RetireFailedHeld(c2, got.value, s.guardRetire); }
    }
  }

  /** When every step succeeds, the new lease ends with a coordinator and the slot's old lease is retired. */
  lemma {:induction false} SuccessfulPreparation(c: Custody, s: Script)
    requires s.lock && s.identity && s.retry && s.parentReady && s.create.Some? && s.candidateValid && s.built
    requires c.unsafeCreates == 0
    ensures var c' := Prepare(c, None, s);
            && c'.coordinators == c.coordinators + {s.create.value} && c'.slot.None?
            && c'.retired == c.retired + SlotSet(c.slot) && c'.created == c.created + {s.create.value}
            && c'.unsafeCreates == 0
  {
  }

  /** Taking a child out of its holder's hands. */
  lemma {:induction false} ChildInHand(c: Custody, l: Lease)
    requires Balanced(c) && l in c.children
    ensures Held(c.(children := c.children - {l}), {l})
  {
    var c' := c.(children := c.children - {l});
    assert c'.children + {l} == c.children;
    assert c'.coordinators + c'.children + SlotSet(c'.slot) + c'.retired + {l}
        == c.coordinators + c.children + SlotSet(c.slot) + c.retired;
  }

  lemma {:induction false} ConsumeBalanced(c: Custody, l: Lease, s: Script)
    requires Balanced(c) && l in c.children && c.slot.None?
    ensures Balanced(Consume(c, l, s)) && Consume(c, l, s).children == c.children - {l}
  {
    var c1 := c.(children := c.children - {l});
    ChildInHand(c, l);
    RetireFailedHeld(c1, l, s.guardRetire);
  }

  const FAILING := Script(true, false, false, false, false, None, false, false, false, false)

  /** Consuming a child is safe under every pattern of failures exactly when the slot is empty. */
  lemma {:induction false} ConsumeSafeIffSlotEmpty(c: Custody, l: Lease)
    requires Balanced(c) && l in c.children
    ensures (forall s: Script :: Balanced(Consume(c, l, s))) <==> c.slot.None?
  {
    if c.slot.None? {
      forall s: Script ensures Balanced(Consume(c, l, s)) { ConsumeBalanced(c, l, s); }
    } else {
      assert Consume(c, l, FAILING).overwrites == 1;
    }
  }

  lemma {:induction false} PrefetchBalanced(c: Custody, s: Script)
    requires Balanced(c) && (s.create.Some? ==> s.create.value !in c.created)
    ensures Balanced(Prefetch(c, s))
    ensures Prefetch(c, s).children != c.children ==>
              Prefetch(c, s).slot.None? && s.create.Some? && Prefetch(c, s).children == c.children + {s.create.value}
  {
    RetrySlotHeld(c, {}, s.retry);
    var (c1, ok) := RetrySlot(c, s.retry);
    if s.lock && s.identity && ok {
      AcquireHeld(c1, s);
    }
  }

  /* ----- where every lease ends ----- */

  /** The steps up to the retry of the slot are taken. */
  predicate Reached(child: Option<Lease>, s: Script) { s.lock && (child.Some? ==> s.unexpired) && s.identity }

  /** The slot is empty, or its lease is retired on the way. */
  predicate Cleared(c: Custody, child: Option<Lease>, s: Script) { Reached(child, s) && (c.slot.None? || s.retry) }

  /** A new candidate is requested and handed out. */
  predicate HandedOut(c: Custody, child: Option<Lease>, s: Script) {
    Cleared(c, child, s) && s.parentReady && child.None? && s.create.Some?
  }

  /** The lease that a preparation works with. */
  function LeaseOf(c: Custody, child: Option<Lease>, s: Script): Option<Lease> {
    if child.Some? then child else if HandedOut(c, child, s) then s.create else None
  }

  /** Every step succeeds. */
  predicate Succeeds(c: Custody, child: Option<Lease>, s: Script) {
    Cleared(c, child, s) && s.parentReady && s.built && (child.Some? || (s.create.Some? && s.candidateValid))
  }

  /** The node takes the lease back when the preparation does not succeed. */
  predicate TakenBack(child: Option<Lease>, s: Script) {
    if child.None? && !s.candidateValid then s.candidateRetire else s.guardRetire
  }

  /**
   Where a preparation leaves every lease, for every pattern of failures.  The coordinators gain the lease exactly
   on success; otherwise it is retired exactly when the node takes it back, and waits in the slot when not.
   */
  lemma {:induction false} PreparationOutcome(c: Custody, child: Option<Lease>, s: Script)
    ensures var c', lease := Prepare(c, child, s), LeaseOf(c, child, s);
            var cleared := Cleared(c, child, s);
            var back := lease.Some? && !Succeeds(c, child, s);
            && c'.coordinators == c.coordinators + (if Succeeds(c, child, s) then SlotSet(lease) else {})
            && c'.retired == c.retired + (if cleared then SlotSet(c.slot) else {})
                             + (if back && TakenBack(child, s) then SlotSet(lease) else {})
            && c'.slot == (if back && !TakenBack(child, s) then lease else if cleared then None else c.slot)
            && c'.created == c.created + (if HandedOut(c, child, s) then SlotSet(s.create) else {})
            && c'.children == c.children
  {
  }

  /** A prefetched child leaves its holder first; then it ends as above. */
  lemma {:induction false} ConsumptionOutcome(c: Custody, l: Lease, s: Script)
    requires l in c.children
    ensures var c' := Consume(c, l, s);
            && c'.children == c.children - {l} && c'.created == c.created
            && (l in c'.coordinators - c.coordinators ==> Succeeds(c, Some(l), s))
            && (Succeeds(c, Some(l), s) ==> l in c'.coordinators)
            && (!Succeeds(c, Some(l), s) ==> if s.guardRetire then l in c'.retired else c'.slot == Some(l))
  {
    PreparationOutcome(c.(children := c.children - {l}), Some(l), s);
  }

  /** A prefetch hands out a child exactly when its own steps succeed. */
  lemma {:induction false} PrefetchOutcome(c: Custody, s: Script)
    ensures var c' := Prefetch(c, s);
            var asked := s.lock && s.identity && (c.slot.None? || s.retry);
            && c'.children == c.children + (if asked && s.candidateValid then SlotSet(s.create) else {})
            && c'.created == c.created + (if asked then SlotSet(s.create) else {})
            && c'.coordinators == c.coordinators
            && (asked && s.create.Some? && !s.candidateValid ==>
                if s.candidateRetire then s.create.value in c'.retired else c'.slot == s.create)
  {
  }

  datatype Owner = Coordinator | Child | Slot | Node | Nobody

  /** Who holds a lease; a retired one is back with the node. */
  function OwnerOf(c: Custody, l: Lease): Owner {
    if l in c.coordinators then Coordinator
    else if l in c.children then Child
    else if c.slot == Some(l) then Slot
    else if l in c.retired then Node
    else Nobody
  }

  /** Retiring a held child or generation gives exactly that lease back, and only when the node agrees. */
  lemma {:induction false} RetirementOutcome(c: Custody, l: Lease, ok: bool, x: Lease)
    requires Balanced(c)
    ensures OwnerOf(RetireChild(c, l, ok), x)
         == if x == l && ok && OwnerOf(c, l) == Child then Node else OwnerOf(c, x)
    ensures OwnerOf(RetireGeneration(c, l, ok), x)
         == if x == l && ok && OwnerOf(c, l) == Coordinator then Node else OwnerOf(c, x)
    ensures RetireChild(c, l, ok).created == c.created && RetireGeneration(c, l, ok).created == c.created
  {
  }

  /* ----- runs ----- */

  datatype Op =
    | PrefetchOp(s: Script)
    | BaselineOp(s: Script)
    | ConsumeOp(child: Lease, s: Script)
    | RetireChildOp(child: Lease, ok: bool)
    | RetireGenerationOp(generation: Lease, ok: bool)

  function Step(c: Custody, op: Op): Custody {
    match op
    case PrefetchOp(s) => Prefetch(c, s)
    case BaselineOp(s) => Prepare(c, None, s)
    case ConsumeOp(l, s) => Consume(c, l, s)
    case RetireChildOp(l, ok) => RetireChild(c, l, ok)
    case RetireGenerationOp(l, ok) => RetireGeneration(c, l, ok)
  }

  /** New candidates are new, a consumed child is held, and nothing is prepared beside an outstanding child. */
  predicate Allowed(c: Custody, op: Op) {
    match op
    case PrefetchOp(s) => c.children == {} && (s.create.Some? ==> s.create.value !in c.created)
    case BaselineOp(s) => c.children == {} && (s.create.Some? ==> s.create.value !in c.created)
    case ConsumeOp(l, s) => l in c.children
    case RetireChildOp(l, _) => true
    case RetireGenerationOp(l, _) => true
  }

  lemma {:induction false} RetireChildBalanced(c: Custody, l: Lease, ok: bool)
    requires Balanced(c) && Disciplined(c)
    ensures Balanced(RetireChild(c, l, ok)) && Disciplined(RetireChild(c, l, ok))
  {
    if ok && l in c.children {
      ChildInHand(c, l);
      RetireFailedHeld(c.(children := c.children - {l}), l, true);
      OnlyChild(c.children, l);
    }
  }

  lemma {:induction false} StepBalanced(c: Custody, op: Op)
    requires Balanced(c) && Disciplined(c) && Allowed(c, op)
    ensures Balanced(Step(c, op)) && Disciplined(Step(c, op))
  {
    match op
    case PrefetchOp(s) => PrefetchBalanced(c, s);
    case BaselineOp(s) => BaselineBalanced(c, s);
    case ConsumeOp(l, s) => ConsumeBalanced(c, l, s); OnlyChild(c.children, l);
    case RetireChildOp(l, ok) => RetireChildBalanced(c, l, ok);
    case RetireGenerationOp(l, ok) => if ok && l in c.coordinators { MoveOut(c, l); }
  }

  lemma {:induction false} OnlyChild(children: set<Lease>, l: Lease)
    requires l in children && |children| == 1
    ensures children - {l} == {}
  {
    assert |children - {l}| == 0;
  }

  lemma {:induction false} MoveOut(c: Custody, l: Lease)
    requires Balanced(c) && l in c.coordinators
    ensures Balanced(c.(coordinators := c.coordinators - {l}, retired := c.retired + {l}))
  {
    assert c.coordinators - {l} + c.children + SlotSet(c.slot) + (c.retired + {l})
        == c.coordinators + c.children + SlotSet(c.slot) + c.retired;
  }

  function Run(c: Custody, ops: seq<Op>): Custody {
    if ops == [] then c else Step(Run(c, ops[..|ops| - 1]), ops[|ops| - 1])
  }

  predicate AllowedRun(c: Custody, ops: seq<Op>) {
    ops != [] ==> AllowedRun(c, ops[..|ops| - 1]) && Allowed(Run(c, ops[..|ops| - 1]), ops[|ops| - 1])
  }

  /**
   Lease conservation.  Under the discipline, after any run with any failures, every created lease has
   exactly one owner, no failed lease was stored over another, and no candidate was requested while the
   slot was occupied.
   */
  lemma {:induction false} LeasesConserved(ops: seq<Op>)
    requires AllowedRun(EMPTY, ops)
    ensures Balanced(Run(EMPTY, ops)) && Disciplined(Run(EMPTY, ops))
  {
    if ops == [] {
    } else {
      LeasesConserved(ops[..|ops| - 1]);
      StepBalanced(Run(EMPTY, ops[..|ops| - 1]), ops[|ops| - 1]);
    }
  }

  /** Without the discipline a lease is lost: a baseline preparation beside an outstanding child. */
  lemma {:induction false} UndisciplinedLosesLease(a: Lease, b: Lease)
    requires a != b
    ensures var good := Script(true, true, true, true, true, Some(a), true, true, true, true);
            var bad := Script(true, true, true, true, true, Some(b), true, true, false, false);
            var ops := [PrefetchOp(good), BaselineOp(bad), ConsumeOp(a, FAILING)];
            var c := Run(EMPTY, ops);
            && b in c.created && b !in c.coordinators + c.children + SlotSet(c.slot) + c.retired
            && c.overwrites == 1
  {
    var good := Script(true, true, true, true, true, Some(a), true, true, true, true);
    var bad := Script(true, true, true, true, true, Some(b), true, true, false, false);
    var ops := [PrefetchOp(good), BaselineOp(bad), ConsumeOp(a, FAILING)];
    assert ops[..2] == [PrefetchOp(good), BaselineOp(bad)] && ops[..2][..1] == [PrefetchOp(good)];
    assert ops[..2][..1][..0] == [];
    var c1 := Step(EMPTY, PrefetchOp(good));
    assert Run(EMPTY, ops[..2][..1]) == c1;
    var c2 := Step(c1, BaselineOp(bad));
    assert Run(EMPTY, ops[..2]) == c2;
    assert c2.slot == Some(b) && c2.children == {a};
  }

  /* ----- the supervisor ----- */

  /** The supervisor's retry slot, with a ghost account of every other owner. */
  class Supervisor {
    var pendingRetirement: Option<Lease>
    ghost var book: Custody

    ghost predicate Valid()
      reads this
    {
      book.slot == pendingRetirement
    }

    constructor ()
      ensures Valid() && book == EMPTY
    {
      pendingRetirement, book := None, EMPTY;
    }

    method RetryPendingRetirement(answer: bool) returns (ok: bool)
      requires Valid()
      modifies this
      ensures Valid() && (book, ok) == RetrySlot(old(book), answer)
    {
      var pending := pendingRetirement;
      pendingRetirement := None;
      if pending.None? { return true; }
      if !answer {
        pendingRetirement := pending;
        return false;
      }
      book := book.(slot := None, retired := book.retired + {pending.value});
      return true;
    }

    /** Gives back a lease in hand.  A refused one is kept for a retry, and an empty slot loses nothing. */
    method RetireFailedPreparation(l: Lease, answer: bool)
      requires Valid()
      modifies this
      ensures Valid() && book == RetireFailed(old(book), l, answer)
      ensures pendingRetirement == if answer then old(pendingRetirement) else Some(l)
      ensures Held(old(book), {l}) ==>
                (Held(book, {}) <==> answer || old(pendingRetirement).None?)
      ensures l in book.retired + SlotSet(pendingRetirement)
    {
      ghost var before := book;
      if answer {
        book := book.(retired := book.retired + {l});
      } else {
        book := book.(slot := Some(l), overwrites := book.overwrites + if book.slot.Some? then 1 else 0);
        pendingRetirement := Some(l);
      }
      if Held(before, {l}) { RetireFailedHeldIff(before, l, answer); }
    }

    /** Requests and validates a candidate; the guard gives an invalid one back. */
    method AcquireCandidate(s: Script) returns (got: Option<Lease>)
      requires Valid()
      modifies this
      ensures Valid() && (book, got) == Acquire(old(book), s)
    {
      book := book.(unsafeCreates := book.unsafeCreates + if book.slot.Some? then 1 else 0);
      if s.create.None? { return None; }
      var lease := s.create.value;
      book := book.(created := book.created + {lease});
      if !s.candidateValid {
        RetireFailedPreparation(lease, s.candidateRetire);
        return None;
      }
      return Some(lease);
    }

    method PrepareChildCandidate(s: Script) returns (child: Option<Lease>)
      requires Valid()
      modifies this
      ensures Valid() && book == Prefetch(old(book), s)
      ensures child == if s.lock && s.identity && (old(pendingRetirement).None? || s.retry) && s.candidateValid
                       then s.create else None
      ensures child.Some? ==> child.value in book.children
    {
      if !s.lock || !s.identity { return None; }
      var ok := RetryPendingRetirement(s.retry);
      if !ok { return None; }
      child := AcquireCandidate(s);
      if child.Some? { book := book.(children := book.children + {child.value}); }
    }

    /** The steps of a preparation; `guard` is what must be given back on the way out. */
    method PrepareSteps(child: Option<Lease>, s: Script) returns (coordinator: Option<Lease>, guard: Option<Lease>)
      requires Valid()
      modifies this
      ensures Valid() && (book, guard) == PrepareBody(old(book), child, s)
      ensures coordinator == if Succeeds(old(book), child, s) then LeaseOf(old(book), child, s) else None
      ensures coordinator.Some? ==> coordinator.value in book.coordinators && guard.None?
    {
      guard := child;
      if !s.lock { return None, guard; }
      if child.Some? && !s.unexpired { return None, guard; }
      if !s.identity { return None, guard; }
      var ok := RetryPendingRetirement(s.retry);
      if !ok || !s.parentReady { return None, guard; }
      var prepared := child;
      if prepared.None? { prepared := AcquireCandidate(s); }
      if prepared.None? { return None, guard; }
      guard := prepared;
      if !s.built { return None, guard; }
      book := book.(coordinators := book.coordinators + {prepared.value});
      return prepared, None;
    }

    /** Builds a coordinator; whatever the guard still holds is retired or stored for a retry. */
    method PrepareGeneration(child: Option<Lease>, s: Script) returns (coordinator: Option<Lease>)
      requires Valid()
      modifies this
      ensures Valid()
      ensures book == if child.Some? then Consume(old(book), child.value, s) else Prepare(old(book), None, s)
      ensures coordinator == if Succeeds(old(book), child, s) then LeaseOf(old(book), child, s) else None
    {
      if child.Some? { book := book.(children := book.children - {child.value}); }
      var guard;
      coordinator, guard := PrepareSteps(child, s);
      if guard.Some? { RetireFailedPreparation(guard.value, s.guardRetire); }
    }
  }
}
