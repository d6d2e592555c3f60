/**
 A failed worker at its loop head, over every run: it always has room to receive, and its timer is
 armed again exactly by answering messages while nothing is pending.
 */
module BatchFailure {
  import opened Common
  import opened BatchProtocol

  predicate AnyRefused(s: System) { exists id :: id in s.answers && s.answers[id].Refused? }

  /** The timer of a failed worker: armed by the first refusal, if no weight was pending when it failed. */
  predicate Rearmed(s: System) { s.timer <==> s.pending == 0 && AnyRefused(s) }

  /** A failure that will lead back to the loop head. */
  predicate Returning(pc: Pc) { pc.Failing? && !pc.next.DrainThen? }

  predicate Settled(s: System) {
    && (s.failed.None? ==> !AnyRefused(s))
    && (s.failed.Some? && (s.pc.Head? || (s.pc.Failing? && s.pc.next.HeadThen?)) ==> Rearmed(s))
    && (Returning(s.pc) || (s.failed.Some? && s.pc.Head?) ==> s.running < s.cfg.maxRunning)
    && (s.pc.Failing? && s.pc.next.AnswerThen? ==>
        s.pending < s.cfg.maxWeight && s.pc.next.isNew == (s.pending == 0))
  }

  /* ----- one step ----- */

  /** Steps that touch none of what the invariant is about. */
  lemma {:induction false} SettledSame(s: System, t: System)
    requires Settled(s) && t.cfg == s.cfg && t.failed == s.failed && t.answers == s.answers && t.pc == s.pc
    requires t.running <= s.running && t.timer == s.timer && t.pending == s.pending
    ensures Settled(t)
  {
    assert AnyRefused(t) <==> AnyRefused(s);
  }

  lemma {:induction false} SettledClient(s: System, h: nat, weight: nat)
    requires Settled(s)
    ensures Settled(OnPoll(s)) && Settled(OnRelease(s, h)) && Settled(OnAcquire(s, h)) && Settled(OnCall(s, h, weight))
  {
    SettledSame(s, OnPoll(s));
    SettledSame(s, OnRelease(s, h));
    SettledSame(s, OnAcquire(s, h));
    SettledSame(s, OnCall(s, h, weight));
  }

  lemma {:induction false} SettledBatch(s: System, outcome: Option<Error>)
    requires Settled(s) && Counted(s)
    ensures Settled(OnBatchFinished(s, outcome))
  {
    assert AnyRefused(OnBatchFinished(s, outcome)) <==> AnyRefused(s);
  }

  lemma {:induction false} SettledLeaving(s: System)
    requires Settled(s) && Counted(s)
    ensures Settled(OnTimer(s)) && Settled(OnDrop(s))
  {
    assert AnyRefused(OnTimer(s)) <==> AnyRefused(s);
    assert AnyRefused(OnDrop(s)) <==> AnyRefused(s);
  }

  /** Refusing a message while failed. */
  lemma {:induction false} RefusalShows(s: System, id: nat, e: Error)
    ensures AnyRefused(s.(answers := s.answers[id := Refused(e)]))
  {
    var t := s.(answers := s.answers[id := Refused(e)]);
    assert id in t.answers && t.answers[id].Refused?;
  }

  lemma {:induction false} SettledRefusal(s: System, id: nat, isNew: bool, e: Error)
    requires s.failed.Some? && s.cfg.maxWeight > 0 && isNew == (s.pending == 0) && (s.timer ==> s.pending == 0)
    requires s.running < s.cfg.maxRunning
    ensures Settled(AfterMessage(s.(answers := s.answers[id := Refused(e)]), isNew))
  {
    var t := AfterMessage(s.(answers := s.answers[id := Refused(e)]), isNew);
    RefusalShows(s, id, e);
    assert id in t.answers && t.answers[id].Refused?;
  }

  lemma {:induction false} SettledReceive(s: System)
    requires Settled(s) && Counted(s)
    ensures Settled(OnReceive(s))
  {
    if s.pc.Head? && s.running < s.cfg.maxRunning && s.queue != [] {
      var t := s.(queue := s.queue[1..]);
      if s.failed.Some? {
        SettledRefusal(t, s.queue[0].id, s.pending == 0, s.failed.value);
      } else {
        assert AnyRefused(OnReceive(s)) <==> AnyRefused(s);
      }
    }
  }

  lemma {:induction false} SettledDrain(s: System)
    requires Settled(s) && Counted(s)
    ensures Settled(OnDrain(s))
  {
    if s.pc.Draining? { assert s.failed.Some?; }
  }

  lemma {:induction false} AcceptedShows(s: System, t: System, id: nat)
    requires t.answers == s.answers[id := Accepted] && !AnyRefused(s)
    ensures !AnyRefused(t)
  {
    forall k | k in t.answers ensures !t.answers[k].Refused? {
      if k != id { assert t.answers[k] == s.answers[k]; }
    }
  }

  lemma {:induction false} SettledMessage(s: System, m: Message, isNew: bool, outcome: Option<Error>)
    requires Settled(s) && Counted(s) && s.pc == Ready(m, isNew)
    ensures Settled(OnMessageReady(s, m, isNew, outcome))
  {
    if outcome.None? {
      AcceptedShows(s, OnMessageReady(s, m, isNew, outcome), m.id);
    } else {
      assert AnyRefused(OnMessageReady(s, m, isNew, outcome)) <==> AnyRefused(s);
    }
  }

  lemma {:induction false} SettledFlush(s: System, held: bool, outcome: Option<Error>)
    requires Settled(s) && Counted(s) && s.pc == Flush(held)
    ensures Settled(OnFlushReady(s, held, outcome))
  {
    assert AnyRefused(OnFlushReady(s, held, outcome)) <==> AnyRefused(s);
  }

  lemma {:induction false} SettledFailEarly(s: System)
    requires Settled(s) && Counted(s) && s.pc.Failing? && s.pc.stage < 3
    ensures Settled(FailNext(s))
  {
    if !(s.pc.stage == 0 && s.stored.Some? && s.pc.next.AnswerThen?) {
      assert AnyRefused(FailNext(s)) <==> AnyRefused(s);
    }
  }

  lemma {:induction false} SettledFailLast(s: System)
    requires Settled(s) && Counted(s) && s.pc.Failing? && s.pc.stage == 3
    ensures Settled(FailNext(s))
  {
    if s.pc.next.AnswerThen? {
      SettledRefusal(s.(timer := false, failed := Some(s.pc.error)), s.pc.next.message.id, s.pc.next.isNew, s.pc.error);
    } else {
      assert AnyRefused(FailNext(s)) <==> AnyRefused(s);
    }
  }

  lemma {:induction false} SettledStep(s: System, a: Action)
    requires Settled(s) && Counted(s)
    ensures Settled(Next(s, a))
  {
    match a
    case Receive => SettledReceive(s);
    case BatchFinished(outcome) => SettledBatch(s, outcome);
    case TimerFires => SettledLeaving(s);
    case DropWorker => SettledLeaving(s);
    case DrainStep => SettledDrain(s);
    case FailStep =>
      if s.pc.Failing? { if s.pc.stage == 3 { SettledFailLast(s); } else { SettledFailEarly(s); } }
    case ServiceAnswers(outcome) =>
      if s.pc.Ready? { SettledMessage(s, s.pc.message, s.pc.isNew, outcome); }
      else if s.pc.Flush? { SettledFlush(s, s.pc.held, outcome); }
    case PollClosed => SettledClient(s, 0, 0);
    case Acquire(h) => SettledClient(s, h, 0);
    case Call(h, weight) => SettledClient(s, h, weight);
    case Release(h) => SettledClient(s, h, 0);
  }

  /* ----- every run ----- */

  /** A state that the protocol can be in, as far as its invariants tell. */
  predicate Sound(s: System) { Safe(s) && Settled(s) }

  lemma {:induction false} RunIsSound(s: System, actions: seq<Action>)
    requires Sound(s)
    ensures Sound(Run(s, actions))
  {
    if actions == [] {
      assert Run(s, actions) == s;
    } else {
      var n := |actions| - 1;
      RunIsSound(s, actions[..n]);
      RunIsSafe(s, actions);
      SettledStep(Run(s, actions[..n]), actions[n]);
    }
  }

  lemma {:induction false} StartIsSound(cfg: Config)
    requires cfg.maxWeight > 0
    ensures Sound(Start(cfg))
  {
    StartIsSafe(cfg);
  }

  /**
   The timer of a failed worker, over every run.  At the loop head it is armed if and only if no weight is
   pending and some message was already refused, whoever met the failure; and there is always a free batch
   slot, so receiving is never shut out by running batches.
   */
  lemma {:induction false} FailedTimerIff(cfg: Config, actions: seq<Action>)
    requires cfg.maxWeight > 0
    requires Run(Start(cfg), actions).failed.Some? && Run(Start(cfg), actions).pc.Head?
    ensures var s := Run(Start(cfg), actions);
            && (s.timer <==> s.pending == 0 && exists id :: id in s.answers && s.answers[id].Refused?)
            && s.running < cfg.maxRunning
  {
    StartIsSound(cfg);
    RunIsSound(Start(cfg), actions);
    RunIsSafe(Start(cfg), actions);
  }

  /* ----- receiving after a failure ----- */

  /** What is left of the channel after some receives of a failed worker, and what they answered. */
  predicate DrainedBy(s: System, t: System, n: nat) {
    && n <= |s.queue| && t.pc.Head? && t.failed == s.failed && t.running == s.running && t.cfg == s.cfg
    && t.queue == s.queue[n..] && s.failed.Some?
    && forall i :: 0 <= i < n ==>
         s.queue[i].id in t.answers && t.answers[s.queue[i].id] == Refused(s.failed.value)
  }

  lemma {:induction false} OneMoreReceive(s: System, t: System, n: nat)
    requires DrainedBy(s, t, n) && n < |s.queue| && t.running < t.cfg.maxRunning
    ensures DrainedBy(s, OnReceive(t), n + 1)
  {
    assert t.queue[0] == s.queue[n] && t.queue[1..] == s.queue[n + 1..];
  }

  lemma {:induction false} Drains(s: System, n: nat)
    requires s.pc.Head? && s.failed.Some? && s.running < s.cfg.maxRunning && n <= |s.queue|
    ensures DrainedBy(s, Run(s, seq(n, i => Receive)), n)
  {
    var actions := seq(n, i => Receive);
    if n == 0 {
      assert s.queue[0..] == s.queue;
    } else {
      assert actions[..n - 1] == seq(n - 1, i => Receive);
      Drains(s, n - 1);
      OneMoreReceive(s, Run(s, actions[..n - 1]), n - 1);
    }
  }

  /** From every reachable failed loop head, n receives answer the first n waiting messages with the first error. */
  lemma {:induction false} FailedWorkerDrains(cfg: Config, before: seq<Action>, n: nat)
    requires cfg.maxWeight > 0
    requires Run(Start(cfg), before).failed.Some? && Run(Start(cfg), before).pc.Head?
    requires n <= |Run(Start(cfg), before).queue|
    ensures DrainedBy(Run(Start(cfg), before), Run(Run(Start(cfg), before), seq(n, i => Receive)), n)
    ensures Run(Start(cfg), before).failed == Run(Start(cfg), before).stored
  {
    FailedTimerIff(cfg, before);
    StartIsSafe(cfg);
    RunIsSafe(Start(cfg), before);
    Drains(Run(Start(cfg), before), n);
  }
}
