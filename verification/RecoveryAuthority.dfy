/**
 The cached parent authority.  Refreshes run concurrently and finish in any order; observers read
 the cached sample without waiting; closing is permanent.
 */
module RecoveryAuthority {
  import opened Common
  import opened Lifecycle

  /** One second, in nanoseconds. */
  const AUTHORITY_MAX_AGE: nat := 1_000_000_000

  datatype Sample = Sample(attempt: nat, started: nat, completed: nat, tip: Option<Tip>)

  datatype View = Current | Stale | Unknown

  datatype Job = Job(zcashHeight: u32, previousHash: seq<byte>)

  /** `writing` is the sample of the publisher that holds the lock; `offered` are the attempts that got that far. */
  datatype State = State(
    closed: bool, nextAttempt: u64, sample: Option<Sample>,
    flights: set<(nat, nat)>, writing: Option<Sample>, offered: set<nat>)

  const INITIAL := State(false, 0, None, {}, None, {})

  datatype Action =
    | Begin(now: nat)
    | Lock(attempt: nat, started: nat, completed: nat, tip: Option<Tip>)
    | Store
    | Close

  predicate Newer(s: Sample, cached: Option<Sample>) { cached.Some? ==> s.attempt > cached.value.attempt }

  function Next(s: State, a: Action): State {
    match a
    case Begin(now) =>
      // A refresh that saw the authority open may still begin after it was closed.
      if s.nextAttempt == U64_MAX then s.(closed := true)
      else s.(nextAttempt := s.nextAttempt + 1, flights := s.flights + {(s.nextAttempt + 1, now)})
    case Lock(attempt, started, completed, tip) =>
      if (attempt, started) !in s.flights || s.writing.Some? then s
      else
        var sample := Sample(attempt, started, completed, tip);
        var s := s.(flights := s.flights - {(attempt, started)});
        if s.closed then s
        else if !Newer(sample, s.sample) then s.(offered := s.offered + {attempt})
        else s.(writing := Some(sample), offered := s.offered + {attempt})
    case Store =>
      // The last check of `closed` was before this step; a close in between cannot stop the store.
      if s.writing.None? then s else s.(sample := s.writing, writing := None)
    case Close => s.(closed := true)
  }

  function Run(s: State, actions: seq<Action>): State {
    if actions == [] then s else Next(Run(s, actions[..|actions| - 1]), actions[|actions| - 1])
  }

  /* ----- observation ----- */

  function CachedTip(s: State, now: nat): Option<Tip> {
    if s.closed || s.writing.Some? || s.sample.None? then None
    else
      var sample := s.sample.value;
      if sample.started > sample.completed || sample.completed > now || now - sample.started >= AUTHORITY_MAX_AGE
      then None
      else sample.tip
  }

  function ObserveTip(s: State, expected: Tip, now: nat): View {
    match CachedTip(s, now)
    case Some(tip) => if tip == expected then Current else Stale
    case None => Unknown
  }

  function ObserveAt(s: State, job: Job, now: nat): View {
    match CachedTip(s, now)
    case None => Unknown
    case Some(tip) =>
      if job.zcashHeight > 0 && job.zcashHeight - 1 == tip.height && job.previousHash == tip.hash then Current
      else Stale
  }

  /* ----- every run ----- */

  function AttemptOf(s: Option<Sample>): nat { if s.Some? then s.value.attempt else 0 }

  /** Attempt numbers are issued once, and the cached sample is the newest one offered. */
  ghost predicate Sound(s: State) {
    && (forall f :: f in s.flights ==> 1 <= f.0 <= s.nextAttempt && f.0 !in s.offered)
    && (forall f, g :: f in s.flights && g in s.flights && f.0 == g.0 ==> f == g)
    && (forall n :: n in s.offered ==>
        1 <= n <= s.nextAttempt && n <= AttemptOf(if s.writing.Some? then s.writing else s.sample))
    && (s.sample.Some? ==> s.sample.value.attempt in s.offered)
    && (s.writing.Some? ==> s.writing.value.attempt in s.offered && Newer(s.writing.value, s.sample))
  }

  lemma {:induction false} SoundStep(s: State, a: Action)
    requires Sound(s)
    ensures Sound(Next(s, a))
  {
  }

  /** The authority never reopens, and the cached attempt never goes back. */
  predicate Advances(s: State, t: State) {
    && (s.closed ==> t.closed) && s.nextAttempt <= t.nextAttempt
    && (s.sample.Some? ==> t.sample.Some?)
    && (s.sample == t.sample || AttemptOf(s.sample) < AttemptOf(t.sample))
  }

  lemma {:induction false} AdvancesStep(s: State, a: Action)
    requires Sound(s)
    ensures Advances(s, Next(s, a))
  {
    if a.Store? && s.writing.Some? && s.sample.None? { assert s.writing.value.attempt in s.offered; }
  }

  lemma {:induction false} AdvancesTransitive(s: State, t: State, u: State)
    requires Advances(s, t) && Advances(t, u)
    ensures Advances(s, u)
  {
  }

  /** However refreshes finish, every later sample is newer than every earlier one, and closing is permanent. */
  lemma {:induction false} RunAdvances(s: State, actions: seq<Action>)
    requires Sound(s)
    ensures Sound(Run(s, actions)) && Advances(s, Run(s, actions))
  {
    if actions == [] {
    } else {
      var n := |actions| - 1;
      RunAdvances(s, actions[..n]);
      SoundStep(Run(s, actions[..n]), actions[n]);
      AdvancesStep(Run(s, actions[..n]), actions[n]);
      AdvancesTransitive(s, Run(s, actions[..n]), Run(s, actions));
    }
  }

  /** The cached sample is the newest of all that were offered while the authority was open. */
  lemma {:induction false} NewestWins(actions: seq<Action>, n: nat)
    requires n in Run(INITIAL, actions).offered && Run(INITIAL, actions).writing.None?
    ensures Run(INITIAL, actions).sample.Some? && n <= Run(INITIAL, actions).sample.value.attempt
  {
    RunAdvances(INITIAL, actions);
  }

  /**
   What one refresh leaves.  On an open authority a finished refresh is cached if and only if it is newer than the
   cached one, a closed authority keeps what it had, and each refresh can finish only once.
   */
  lemma {:induction false} RefreshOutcome(s: State, attempt: nat, started: nat, completed: nat, tip: Option<Tip>)
    requires s.writing.None? && (attempt, started) in s.flights
    ensures var t := Next(Next(s, Lock(attempt, started, completed, tip)), Store);
            && t.writing.None? && t.closed == s.closed && (attempt, started) !in t.flights
            && t.sample == (if !s.closed && (s.sample.None? || s.sample.value.attempt < attempt)
                            then Some(Sample(attempt, started, completed, tip)) else s.sample)
  {
  }

  /** Beginning a refresh takes the next number, and the last number closes the authority for good. */
  lemma {:induction false} BeginOutcome(s: State, now: nat)
    ensures var t := Next(s, Begin(now));
            && (t.nextAttempt == s.nextAttempt + 1 <==> s.nextAttempt < U64_MAX)
            && (s.nextAttempt < U64_MAX ==>
                (t.nextAttempt, now) in t.flights && t.closed == s.closed && t.sample == s.sample)
            && (s.nextAttempt == U64_MAX ==> t.closed && t.flights == s.flights && t.sample == s.sample)
  {
  }

  /** Every observation that begins after a close is Unknown, whatever late refreshes store. */
  lemma {:induction false} ClosedIsUnknown(before: seq<Action>, after: seq<Action>, job: Job, expected: Tip, now: nat)
    requires Run(INITIAL, before).closed
    ensures ObserveAt(Run(Run(INITIAL, before), after), job, now) == Unknown
    ensures ObserveTip(Run(Run(INITIAL, before), after), expected, now) == Unknown
  {
    RunAdvances(INITIAL, before);
    RunAdvances(Run(INITIAL, before), after);
  }

  /** An open authority has a readable sample with a tip that started less than a second ago. */
  predicate Fresh(s: State, now: nat) {
    && !s.closed && s.writing.None? && s.sample.Some? && s.sample.value.tip.Some?
    && s.sample.value.started <= s.sample.value.completed <= now < s.sample.value.started + 1_000_000_000
  }

  /** Current and Stale come exactly from fresh evidence, and Current means that the job builds on its exact tip. */
  lemma {:induction false} EvidenceIsFresh(s: State, job: Job, now: nat)
    ensures ObserveAt(s, job, now) != Unknown <==> Fresh(s, now)
    ensures forall expected :: ObserveTip(s, expected, now) ==
              if !Fresh(s, now) then Unknown else if s.sample.value.tip == Some(expected) then Current else Stale
    ensures ObserveAt(s, job, now) == Current <==>
              Fresh(s, now) && job.zcashHeight > 0
              && s.sample.value.tip.value.height + 1 == job.zcashHeight
              && s.sample.value.tip.value.hash == job.previousHash
  {
  }

  /* ----- the authority object ----- */

  class Authority {
    var closed: bool
    var nextAttempt: u64
    var sample: Option<Sample>
    ghost var flights: set<(nat, nat)>
    ghost var offered: set<nat>

    /** The authority between operations, with no publisher inside the lock. */
    ghost function Model(): State
      reads this
    {
      State(closed, nextAttempt, sample, flights, None, offered)
    }

    ghost predicate Valid()
      reads this
    {
      Sound(Model())
    }

    constructor ()
      ensures Valid() && Model() == INITIAL
    {
      closed, nextAttempt, sample := false, 0, None;
      flights, offered := {}, {};
    }

    /** Starts a refresh: takes the next attempt number, or closes when there is none left. */
    method BeginRefresh(now: nat) returns (attempt: Option<nat>)
      requires Valid()
      modifies this
      ensures Valid() && Model() == if old(closed) then old(Model()) else Next(old(Model()), Begin(now))
      ensures attempt.Some? <==> !old(closed) && old(nextAttempt) < U64_MAX
      ensures attempt.Some? ==> (attempt.value, now) in flights
    {
      if closed { return None; }
      SoundStep(Model(), Begin(now));
      if nextAttempt == U64_MAX {
        CloseAuthority();
        return None;
      }
      nextAttempt := nextAttempt + 1;
      flights := flights + {(nextAttempt, now)};
      return Some(nextAttempt);
    }

    /** Finishes a refresh: an open authority keeps the sample if it is newer than the cached one. */
    method Publish(s: Sample)
      requires Valid() && (s.attempt, s.started) in flights
      modifies this
      ensures Valid()
      ensures Model() == Next(Next(old(Model()), Lock(s.attempt, s.started, s.completed, s.tip)), Store)
    {
      SoundStep(Model(), Lock(s.attempt, s.started, s.completed, s.tip));
      SoundStep(Next(Model(), Lock(s.attempt, s.started, s.completed, s.tip)), Store);
      flights := flights - {(s.attempt, s.started)};
      if closed { return; }
      offered := offered + {s.attempt};
      if Newer(s, sample) { sample := Some(s); }
    }

    method CloseAuthority()
      requires Valid()
      modifies `closed
      ensures Valid() && closed && Model() == Next(old(Model()), Close)
    {
      SoundStep(Model(), Close);
      closed := true;
    }

    /** Reads the cached tip without waiting: nothing when closed, contended, absent, unordered or too old. */
    method ReadCachedTip(contended: bool, now: nat) returns (tip: Option<Tip>)
      ensures tip == if contended then None else CachedTip(Model(), now)
    {
      if closed || contended || sample.None? { return None; }
      var s := sample.value;
      if s.started > s.completed || s.completed > now { return None; }
      if now - s.started >= AUTHORITY_MAX_AGE { return None; }
      return s.tip;
    }

    method Observe(job: Job, contended: bool, now: nat) returns (v: View)
      ensures v == if contended then Unknown else ObserveAt(Model(), job, now)
    {
      var tip := ReadCachedTip(contended, now);
      if tip.None? { return Unknown; }
      if job.zcashHeight > 0 && job.zcashHeight - 1 == tip.value.height && job.previousHash == tip.value.hash {
        return Current;
      }
      return Stale;
    }
  }
}
