/**
 The select loop.  Its branches are tried in a fixed order: a finished batch, then an elapsed timer, then
 the channel.  Each iteration is a sequence of protocol steps, and clients act between iterations.
 */
module BatchLoop {
  import opened Common
  import opened BatchProtocol
  import opened BatchFailure

  /** The effect of registering a failure when no client acts in between. */
  function Registered(s: System, e: Error): System {
    if s.stored.Some? then s
    else s.(stored := Some(e), rxClosed := true, semClosed := true, timer := false, failed := Some(e))
  }

  /** As many failure steps as one failure can take. */
  function Fails(s: System): System {
    Next(Next(Next(Next(s, FailStep), FailStep), FailStep), FailStep)
  }

  /** Registering a failure step by step and then going on is the same as registering it at once. */
  lemma {:induction false} FailsRegister(s: System, e: Error, next: Then)
    requires Ordered(s.(pc := Head)) && !next.DrainThen?
    requires next.AnswerThen? ==> s.failed.None? && s.pending < s.cfg.maxWeight
    ensures Fails(Fail(s, e, next)) == AfterFailure(Registered(s, e), next)
  {
    var s0 := Fail(s, e, next);
    var s1 := Next(s0, FailStep);
    if s.stored.None? {
      var s2 := Next(s1, FailStep);
      var s3 := Next(s2, FailStep);
      assert s3.pc == Failing(e, 3, next);
    } else {
      assert s1.pc.Head?;
    }
  }

  lemma {:induction false} NoFailure(s: System)
    requires !s.pc.Failing?
    ensures Fails(s) == s
  {
  }

  /* ----- whole branches of the select loop ----- */

  function BatchBranch(s: System, outcome: Option<Error>): System { Fails(Next(s, BatchFinished(outcome))) }

  function TimerBranch(s: System, flush: Option<Error>): System {
    Fails(Next(Next(s, TimerFires), ServiceAnswers(flush)))
  }

  function MessageBranch(s: System, ready: Option<Error>, flush: Option<Error>): System {
    Fails(Next(Fails(Next(Next(s, Receive), ServiceAnswers(ready))), ServiceAnswers(flush)))
  }

  /** Answers what is left in the channel, and ends. */
  function Drained(s: System): System
    decreases |s.queue|
  {
    if !s.pc.Draining? || s.failed.None? || s.queue == [] then Next(s, DrainStep) else Drained(Next(s, DrainStep))
  }

  /** The worker is dropped at its loop head. */
  function EndBranch(s: System): System { Drained(Fails(Next(s, DropWorker))) }

  /* ----- the branches, computed ----- */

  function AfterBatch(s: System, outcome: Option<Error>): System
    requires s.running > 0
  {
    var s := s.(running := s.running - 1);
    if outcome.Some? then Registered(s, outcome.value) else s
  }

  lemma {:induction false} BatchKept(s: System, outcome: Option<Error>)
    requires Counted(s) && s.pc.Head? && s.running > 0
    ensures BatchBranch(s, outcome) == AfterBatch(s, outcome) && Counted(BatchBranch(s, outcome))
  {
    var t := Next(s, BatchFinished(outcome));
    if outcome.Some? {
      FailsRegister(s.(running := s.running - 1), outcome.value, HeadThen(false));
    } else {
      NoFailure(t);
    }
    CountedStep(s, BatchFinished(outcome));
    CountedFails(t);
  }

  lemma {:induction false} CountedFails(s: System)
    requires Counted(s)
    ensures Counted(Fails(s))
  {
    CountedStep(s, FailStep);
    CountedStep(Next(s, FailStep), FailStep);
    CountedStep(Next(Next(s, FailStep), FailStep), FailStep);
    CountedStep(Next(Next(Next(s, FailStep), FailStep), FailStep), FailStep);
  }

  function Flushed(s: System, flush: Option<Error>): System {
    if s.failed.Some? then s
    else if flush.None? then s.(running := s.running + 1, pending := 0, items := [], timer := false)
    else Registered(s, flush.value)
  }

  /** Waiting for a flush and carrying it out, seen from the loop head. */
  lemma {:induction false} FlushComputed(s: System, held: bool, flush: Option<Error>)
    requires Ordered(s) && s.pc == Flush(held)
    ensures Fails(Next(s, ServiceAnswers(flush)))
         == Flushed(s, flush).(pc := Head, available := s.available + if held then 1 else 0)
  {
    var t := Next(s, ServiceAnswers(flush));
    if flush.Some? {
      FailsRegister(s, flush.value, HeadThen(held));
    } else {
      NoFailure(t);
    }
  }

  lemma {:induction false} TimerKept(s: System, flush: Option<Error>)
    requires Counted(s) && s.pc.Head? && s.timer
    ensures TimerBranch(s, flush) == Flushed(s, flush) && Counted(TimerBranch(s, flush))
  {
    var t := Next(s, TimerFires);
    CountedStep(s, TimerFires);
    CountedStep(t, ServiceAnswers(flush));
    CountedFails(Next(t, ServiceAnswers(flush)));
    if s.failed.None? {
      FlushComputed(t, false, flush);
    } else {
      NoFailure(s);
    }
  }

  /** The state after `ProcessReq`, still holding the message's permit. */
  function Processed(s: System, m: Message, ready: Option<Error>): System {
    if s.failed.Some? then s.(answers := s.answers[m.id := Refused(s.failed.value)])
    else if ready.None? then
      s.(pending := s.pending + m.weight, items := s.items + [m.weight], answers := s.answers[m.id := Accepted])
    else Registered(s, ready.value).(answers := s.answers[m.id := Refused(ready.value)])
  }

  /** The rest of the receive branch. */
  function Finished(s: System, isNew: bool, flush: Option<Error>): System {
    var s := if s.pending >= s.cfg.maxWeight then Flushed(s, flush) else if isNew then s.(timer := true) else s;
    s.(available := s.available + 1)
  }

  lemma {:induction false} ProcessComputed(s: System, ready: Option<Error>)
    requires Counted(s) && s.pc.Head? && s.queue != [] && s.running < s.cfg.maxRunning
    ensures var p := Processed(s.(queue := s.queue[1..]), s.queue[0], ready);
            Fails(Next(Next(s, Receive), ServiceAnswers(ready))) == AfterMessage(p, s.pending == 0)
  {
    var m, isNew := s.queue[0], s.pending == 0;
    var s1 := s.(queue := s.queue[1..]);
    var t := Next(Next(s, Receive), ServiceAnswers(ready));
    if s.failed.None? && ready.Some? {
      assert t == Fail(s1, ready.value, AnswerThen(m, isNew));
      FailsRegister(s1, ready.value, AnswerThen(m, isNew));
    } else {
      NoFailure(t);
    }
  }

  lemma {:induction false} FinishComputed(p: System, isNew: bool, flush: Option<Error>)
    requires Ordered(p) && p.pc.Head?
    ensures Fails(Next(AfterMessage(p, isNew), ServiceAnswers(flush))) == Finished(p, isNew, flush)
  {
    var t := AfterMessage(p, isNew);
    if t.pc.Flush? {
      FlushComputed(t, true, flush);
    } else {
      NoFailure(t);
    }
  }

  lemma {:induction false} MessageKept(s: System, ready: Option<Error>, flush: Option<Error>)
    requires Counted(s) && s.pc.Head? && s.queue != [] && s.running < s.cfg.maxRunning
    ensures var p := Processed(s.(queue := s.queue[1..]), s.queue[0], ready);
            MessageBranch(s, ready, flush) == Finished(p, s.pending == 0, flush)
    ensures Counted(MessageBranch(s, ready, flush))
  {
    var p := Processed(s.(queue := s.queue[1..]), s.queue[0], ready);
    ProcessComputed(s, ready);
    FinishComputed(p, s.pending == 0, flush);
    MessageCounted(s, ready, flush);
  }

  lemma {:induction false} MessageCounted(s: System, ready: Option<Error>, flush: Option<Error>)
    requires Counted(s)
    ensures Counted(MessageBranch(s, ready, flush))
  {
    CountedStep(s, Receive);
    var t := Next(s, Receive);
    CountedStep(t, ServiceAnswers(ready));
    CountedFails(Next(t, ServiceAnswers(ready)));
    var u := Fails(Next(t, ServiceAnswers(ready)));
    CountedStep(u, ServiceAnswers(flush));
    CountedFails(Next(u, ServiceAnswers(flush)));
  }

  lemma {:induction false} EndRegisters(s: System)
    requires Ordered(s) && s.pc.Head?
    ensures Fails(Next(s, DropWorker)) == Registered(s, Closed).(pc := Draining)
  {
    assert s.lost + HeldId(s.pc) == s.lost;
    var s0 := Next(s, DropWorker);
    var s1 := Next(s0, FailStep);
    if s.stored.None? {
      var s2 := Next(s1, FailStep);
      var s3 := Next(s2, FailStep);
      assert s3.pc == Failing(Closed, 3, DrainThen);
    } else {
      assert s1.pc.Draining?;
    }
  }

  lemma {:induction false} DrainedCounted(s: System)
    requires Counted(s)
    ensures Counted(Drained(s))
    decreases |s.queue|
  {
    CountedStep(s, DrainStep);
    if s.pc.Draining? && s.failed.Some? && s.queue != [] { DrainedCounted(Next(s, DrainStep)); }
  }

  lemma {:induction false} EndCounted(s: System)
    requires Counted(s)
    ensures Counted(EndBranch(s))
  {
    CountedStep(s, DropWorker);
    CountedFails(Next(s, DropWorker));
    DrainedCounted(Fails(Next(s, DropWorker)));
  }

  /* ----- iterations ----- */

  /** What is ready when the loop looks, and what the service answers inside the branch that is taken. */
  datatype Moment = Moment(
    finished: Option<Option<Error>>,       // a running batch has finished, with this outcome
    tick: bool,                            // an armed timer has elapsed since the last look
    sendersGone: bool,                     // every service handle was dropped
    ready: Option<Error>,
    flush: Option<Error>)

  /** The loop between iterations: `expired` tells whether the armed timer has elapsed. */
  datatype Loop = Loop(s: System, expired: bool)

  /** An elapsed timer stays elapsed until it is cleared or started anew. */
  predicate Elapsed(l: Loop, m: Moment) { l.s.timer && (l.expired || m.tick) }

  predicate BatchReady(l: Loop, m: Moment) { m.finished.Some? && l.s.running > 0 }

  /** The channel branch: a message, or the end of a closed and empty channel. */
  function ChannelBranch(s: System, m: Moment): System {
    if s.running >= s.cfg.maxRunning then s
    else if s.queue != [] then MessageBranch(s, m.ready, m.flush)
    else if s.rxClosed || m.sendersGone then EndBranch(s)
    else s
  }

  /** One iteration: the first ready branch in the fixed order. */
  function Iterate(l: Loop, m: Moment): Loop {
    var s := l.s;
    if !s.pc.Head? then l
    else if BatchReady(l, m) then Loop(BatchBranch(s, m.finished.value), Elapsed(l, m))
    else if Elapsed(l, m) then Loop(TimerBranch(s, m.flush), s.failed.Some?)
    else Loop(ChannelBranch(s, m), false)
  }

  predicate ByClient(a: Action) { a.PollClosed? || a.Acquire? || a.Call? || a.Release? }

  datatype Turn = ClientTurn(action: Action) | LoopTurn(moment: Moment)

  function Take(l: Loop, t: Turn): Loop {
    match t
    case ClientTurn(a) => if ByClient(a) then l.(s := Next(l.s, a)) else l
    case LoopTurn(m) => Iterate(l, m)
  }

  function Turns(l: Loop, ts: seq<Turn>): Loop {
    if ts == [] then l else Take(Turns(l, ts[..|ts| - 1]), ts[|ts| - 1])
  }

  /* ----- every branch is a run of the protocol ----- */

  lemma {:induction false} OneStep(s: System, actions: seq<Action>, a: Action)
    ensures Run(s, actions + [a]) == Next(Run(s, actions), a)
  {
    assert (actions + [a])[..|actions|] == actions;
  }

  const FOUR := [FailStep, FailStep, FailStep, FailStep]

  lemma {:induction false} FailsIsRun(s: System, actions: seq<Action>)
    ensures Run(s, actions + FOUR) == Fails(Run(s, actions))
  {
    var a1 := actions + [FailStep];
    var a2 := a1 + [FailStep];
    var a3 := a2 + [FailStep];
    OneStep(s, actions, FailStep);
    OneStep(s, a1, FailStep);
    OneStep(s, a2, FailStep);
    OneStep(s, a3, FailStep);
    assert actions + FOUR == a3 + [FailStep];
  }

  lemma {:induction false} RunAppend(s: System, a: seq<Action>, b: seq<Action>)
    ensures Run(s, a + b) == Run(Run(s, a), b)
  {
    if b == [] {
      assert a + b == a;
    } else {
      var n := |b| - 1;
      RunAppend(s, a, b[..n]);
      OneStep(s, a + b[..n], b[n]);
      assert a + b == (a + b[..n]) + [b[n]];
    }
  }

  lemma {:induction false} DrainedIsRun(s: System, actions: seq<Action>) returns (more: seq<Action>)
    ensures Drained(Run(s, actions)) == Run(s, more)
    decreases |Run(s, actions).queue|
  {
    var t := Run(s, actions);
    OneStep(s, actions, DrainStep);
    more := actions + [DrainStep];
    if t.pc.Draining? && t.failed.Some? && t.queue != [] {
      more := DrainedIsRun(s, more);
    }
  }

  lemma {:induction false} BatchBranchIsRun(s: System, outcome: Option<Error>) returns (actions: seq<Action>)
    ensures BatchBranch(s, outcome) == Run(s, actions)
  {
    OneStep(s, [], BatchFinished(outcome));
    FailsIsRun(s, [] + [BatchFinished(outcome)]);
    actions := [] + [BatchFinished(outcome)] + FOUR;
  }

  lemma {:induction false} TimerBranchIsRun(s: System, flush: Option<Error>) returns (actions: seq<Action>)
    ensures TimerBranch(s, flush) == Run(s, actions)
  {
    OneStep(s, [], TimerFires);
    OneStep(s, [] + [TimerFires], ServiceAnswers(flush));
    FailsIsRun(s, [] + [TimerFires] + [ServiceAnswers(flush)]);
    actions := [] + [TimerFires] + [ServiceAnswers(flush)] + FOUR;
  }

  lemma {:induction false} MessageBranchIsRun(s: System, ready: Option<Error>, flush: Option<Error>)
    returns (actions: seq<Action>)
    ensures MessageBranch(s, ready, flush) == Run(s, actions)
  {
    OneStep(s, [], Receive);
    OneStep(s, [] + [Receive], ServiceAnswers(ready));
    var a := [] + [Receive] + [ServiceAnswers(ready)];
    FailsIsRun(s, a);
    OneStep(s, a + FOUR, ServiceAnswers(flush));
    FailsIsRun(s, a + FOUR + [ServiceAnswers(flush)]);
    actions := a + FOUR + [ServiceAnswers(flush)] + FOUR;
  }

  lemma {:induction false} EndBranchIsRun(s: System) returns (actions: seq<Action>)
    ensures EndBranch(s) == Run(s, actions)
  {
    OneStep(s, [], DropWorker);
    FailsIsRun(s, [] + [DropWorker]);
    actions := DrainedIsRun(s, [] + [DropWorker] + FOUR);
  }

  lemma {:induction false} TurnIsRun(l: Loop, t: Turn) returns (actions: seq<Action>)
    ensures Take(l, t).s == Run(l.s, actions)
  {
    actions := [];
    if t.ClientTurn? {
      if ByClient(t.action) {
        OneStep(l.s, [], t.action);
        actions := [] + [t.action];
      }
    } else if l.s.pc.Head? {
      var m := t.moment;
      if BatchReady(l, m) {
        actions := BatchBranchIsRun(l.s, m.finished.value);
      } else if Elapsed(l, m) {
        actions := TimerBranchIsRun(l.s, m.flush);
      } else if l.s.running < l.s.cfg.maxRunning && l.s.queue != [] {
        actions := MessageBranchIsRun(l.s, m.ready, m.flush);
      } else if l.s.running < l.s.cfg.maxRunning && (l.s.rxClosed || m.sendersGone) {
        actions := EndBranchIsRun(l.s);
      }
    }
  }

  /** Whatever the loop and its clients do is a run of the protocol, so everything proved of its runs holds. */
  lemma {:induction false} LoopIsRun(l: Loop, ts: seq<Turn>) returns (actions: seq<Action>)
    ensures Turns(l, ts).s == Run(l.s, actions)
  {
    if ts == [] {
      actions := [];
    } else {
      var n := |ts| - 1;
      var first := LoopIsRun(l, ts[..n]);
      var last := TurnIsRun(Turns(l, ts[..n]), ts[n]);
      RunAppend(l.s, first, last);
      actions := first + last;
    }
  }

  lemma {:induction false} TurnsAreSound(l: Loop, ts: seq<Turn>)
    requires Sound(l.s)
    ensures Sound(Turns(l, ts).s)
  {
    var actions := LoopIsRun(l, ts);
    RunIsSound(l.s, actions);
  }
}
