/**
 How a failed worker ends.  Its loop answers the whole channel and stops, unless it ever meets an armed
 timer that has elapsed; from then on it receives nothing any more.
 */
module BatchDrain {
  import opened Common
  import opened BatchProtocol
  import opened BatchFailure
  import opened BatchLoop

  predicate FailedHead(l: Loop) { l.s.pc.Head? && l.s.failed.Some? && Sound(l.s) }

  /* ----- the branches of a failed worker ----- */

  lemma {:induction false} FailedBatch(s: System, outcome: Option<Error>)
    requires Counted(s) && s.pc.Head? && s.failed.Some? && s.running > 0
    ensures BatchBranch(s, outcome) == s.(running := s.running - 1)
  {
    BatchKept(s, outcome);
  }

  lemma {:induction false} FailedTimer(s: System, flush: Option<Error>)
    requires Counted(s) && s.pc.Head? && s.failed.Some? && s.timer
    ensures TimerBranch(s, flush) == s
  {
    TimerKept(s, flush);
  }

  lemma {:induction false} FailedMessage(s: System, ready: Option<Error>, flush: Option<Error>)
    requires Counted(s) && s.pc.Head? && s.failed.Some? && s.running < s.cfg.maxRunning && s.queue != []
    ensures var t := MessageBranch(s, ready, flush);
            && t.pc.Head? && t.failed == s.failed && t.queue == s.queue[1..] && t.running == s.running
            && t.pending == s.pending && t.available == s.available + 1
            && t.timer == (s.timer || s.pending == 0)
            && t.answers == s.answers[s.queue[0].id := Refused(s.failed.value)]
  {
    MessageKept(s, ready, flush);
  }

  lemma {:induction false} FailedEnd(s: System)
    requires Ordered(s) && s.pc.Head? && s.failed.Some? && s.queue == []
    ensures EndBranch(s) == s.(pc := Done)
  {
    EndRegisters(s);
  }

  lemma {:induction false} TurnIsSound(l: Loop, t: Turn)
    requires Sound(l.s)
    ensures Sound(Take(l, t).s)
  {
    var actions := TurnIsRun(l, t);
    RunIsSound(l.s, actions);
  }

  /** What a client step leaves alone. */
  predicate ClientKeeps(s: System, t: System) {
    && t.pc == s.pc && t.failed == s.failed && t.running == s.running && t.answers == s.answers
    && t.timer == s.timer && t.pending == s.pending && (s.rxClosed ==> t.queue == s.queue)
  }

  lemma {:induction false} ClientStep(s: System, a: Action)
    requires ByClient(a)
    ensures ClientKeeps(s, Next(s, a))
  {
    match a
    case PollClosed => assert ClientKeeps(s, OnPoll(s));
    case Acquire(h) => assert ClientKeeps(s, OnAcquire(s, h));
    case Call(h, weight) => assert ClientKeeps(s, OnCall(s, h, weight));
    case Release(h) => assert ClientKeeps(s, OnRelease(s, h));
  }

  lemma {:induction false} ClosedToClients(l: Loop, a: Action)
    requires FailedHead(l) && ByClient(a)
    ensures var t := Take(l, ClientTurn(a));
            && FailedHead(t) && t.s.queue == l.s.queue && t.s.running == l.s.running && t.s.answers == l.s.answers
            && t.s.timer == l.s.timer && t.expired == l.expired && t.s.pending == l.s.pending
  {
    TurnIsSound(l, ClientTurn(a));
    assert l.s.rxClosed;
    ClientStep(l.s, a);
  }

  /* ----- an elapsed timer ----- */

  /** The loop looks and finds its armed timer elapsed. */
  predicate MeetsNow(l: Loop, t: Turn) { t.LoopTurn? && l.s.pc.Head? && Elapsed(l, t.moment) }

  /** Some look of the loop finds its armed timer elapsed. */
  predicate Meets(l: Loop, ts: seq<Turn>) {
    ts != [] && (Meets(l, ts[..|ts| - 1]) || MeetsNow(Turns(l, ts[..|ts| - 1]), ts[|ts| - 1]))
  }

  predicate Stuck(l: Loop) { FailedHead(l) && l.s.timer && l.expired }

  lemma {:induction false} MeetingSticks(l: Loop, t: Turn)
    requires FailedHead(l) && MeetsNow(l, t)
    ensures Stuck(Take(l, t)) && Take(l, t).s.queue == l.s.queue && Take(l, t).s.answers == l.s.answers
  {
    TurnIsSound(l, t);
    if BatchReady(l, t.moment) { FailedBatch(l.s, t.moment.finished.value); } else { FailedTimer(l.s, t.moment.flush); }
  }

  lemma {:induction false} StuckTurn(l: Loop, t: Turn)
    requires Stuck(l)
    ensures Stuck(Take(l, t)) && Take(l, t).s.queue == l.s.queue && Take(l, t).s.answers == l.s.answers
  {
    if t.LoopTurn? { MeetingSticks(l, t); } else if ByClient(t.action) { ClosedToClients(l, t.action); }
  }

  /** Starvation: once the timer has elapsed, no number of turns answers anything that waits, or ends the worker. */
  lemma {:induction false} Starved(l: Loop, ts: seq<Turn>)
    requires Stuck(l)
    ensures Stuck(Turns(l, ts)) && Turns(l, ts).s.queue == l.s.queue && Turns(l, ts).s.answers == l.s.answers
  {
    if ts == [] {
      assert Turns(l, ts) == l;
    } else {
      Starved(l, ts[..|ts| - 1]);
      StuckTurn(Turns(l, ts[..|ts| - 1]), ts[|ts| - 1]);
    }
  }

  /* ----- progress ----- */

  function LoopCount(ts: seq<Turn>): nat {
    if ts == [] then 0 else LoopCount(ts[..|ts| - 1]) + if ts[|ts| - 1].LoopTurn? then 1 else 0
  }

  /** What is left to do before the loop can end. */
  function Left(s: System): nat { |s.queue| + s.running }

  lemma {:induction false} WorkingTurn(l: Loop, m: Moment)
    requires FailedHead(l) && !Elapsed(l, m)
    ensures var t := Take(l, LoopTurn(m));
            if BatchReady(l, m) || l.s.queue != [] then FailedHead(t) && Left(t.s) + 1 == Left(l.s) else t.s.pc.Done?
  {
    TurnIsSound(l, LoopTurn(m));
    if BatchReady(l, m) {
      FailedBatch(l.s, m.finished.value);
    } else if l.s.queue != [] {
      FailedMessage(l.s, m.ready, m.flush);
    } else {
      FailedEnd(l.s);
    }
  }

  lemma {:induction false} DoneStays(l: Loop, t: Turn)
    requires l.s.pc.Done?
    ensures Take(l, t).s.pc.Done?
  {
    if t.ClientTurn? && ByClient(t.action) { ClientStep(l.s, t.action); }
  }

  /** While no look meets an elapsed timer, every look answers a message, takes a finished batch, or ends the worker. */
  lemma {:induction false} Progress(l: Loop, ts: seq<Turn>)
    requires FailedHead(l) && !Meets(l, ts)
    ensures var t := Turns(l, ts);
            t.s.pc.Done? || (FailedHead(t) && LoopCount(ts) + Left(t.s) == Left(l.s))
  {
    if ts == [] {
      assert Turns(l, ts) == l;
    } else {
      var n := |ts| - 1;
      var t := Turns(l, ts[..n]);
      Progress(l, ts[..n]);
      if t.s.pc.Done? {
        DoneStays(t, ts[n]);
      } else if ts[n].LoopTurn? {
        WorkingTurn(t, ts[n].moment);
      } else if ByClient(ts[n].action) {
        ClosedToClients(t, ts[n].action);
      }
    }
  }

  lemma {:induction false} MeetsStuck(l: Loop, ts: seq<Turn>)
    requires FailedHead(l) && Meets(l, ts)
    ensures Stuck(Turns(l, ts))
  {
    var n := |ts| - 1;
    var t := Turns(l, ts[..n]);
    if Meets(l, ts[..n]) {
      MeetsStuck(l, ts[..n]);
      StuckTurn(t, ts[n]);
    } else {
      Progress(l, ts[..n]);
      MeetingSticks(t, ts[n]);
    }
  }

  /**
   The end of a failed worker, from every reachable failed loop head and in every interleaving with clients.
   After as many looks as there are waiting messages and running batches, and one more, it has ended if and only
   if no look met an elapsed timer.  Then every waiting message has been answered with the first error;
   otherwise the worker never ends and never receives again.
   */
  lemma {:induction false} EndsIffTimerNeverElapses(cfg: Config, before: seq<Action>, expired: bool, ts: seq<Turn>)
    requires cfg.maxWeight > 0
    requires Run(Start(cfg), before).failed.Some? && Run(Start(cfg), before).pc.Head?
    requires LoopCount(ts) > |Run(Start(cfg), before).queue| + Run(Start(cfg), before).running
    ensures var l := Loop(Run(Start(cfg), before), expired);
            && (Turns(l, ts).s.pc.Done? <==> !Meets(l, ts))
            && (Meets(l, ts) ==> Stuck(Turns(l, ts)))
            && (!Meets(l, ts) ==> forall id :: id in QueueIds(l.s.queue) ==>
                  id in Turns(l, ts).s.answers && Turns(l, ts).s.answers[id] == Refused(l.s.failed.value))
  {
    var l := Loop(Run(Start(cfg), before), expired);
    StartIsSound(cfg);
    RunIsSound(Start(cfg), before);
    if Meets(l, ts) {
      MeetsStuck(l, ts);
    } else {
      Progress(l, ts);
      var actions := LoopIsRun(l, ts);
      forall id | id in QueueIds(l.s.queue)
        ensures id in Turns(l, ts).s.answers && Turns(l, ts).s.answers[id] == Refused(l.s.failed.value)
      {
        FailureProtocol(cfg, before, actions, id);
      }
    }
  }

  /* ----- a worker that fails with weight pending ----- */

  lemma {:induction false} PendingTurn(l: Loop, t: Turn)
    requires FailedHead(l) && l.s.pending > 0
    ensures !MeetsNow(l, t)
    ensures Take(l, t).s.pc.Done? || (FailedHead(Take(l, t)) && Take(l, t).s.pending == l.s.pending)
  {
    assert !l.s.timer;
    if t.LoopTurn? {
      WorkingTurn(l, t.moment);
      if BatchReady(l, t.moment) {
        FailedBatch(l.s, t.moment.finished.value);
      } else if l.s.queue != [] {
        FailedMessage(l.s, t.moment.ready, t.moment.flush);
      }
    } else if ByClient(t.action) {
      ClosedToClients(l, t.action);
    }
  }

  /** A worker that fails while a batch is pending never arms its timer again, so it always ends. */
  lemma {:induction false} PendingNeverMeets(l: Loop, ts: seq<Turn>)
    requires FailedHead(l) && l.s.pending > 0
    ensures !Meets(l, ts)
    ensures Turns(l, ts).s.pc.Done? || (FailedHead(Turns(l, ts)) && Turns(l, ts).s.pending == l.s.pending)
  {
    if ts == [] {
      assert Turns(l, ts) == l;
    } else {
      var n := |ts| - 1;
      PendingNeverMeets(l, ts[..n]);
      var t := Turns(l, ts[..n]);
      if t.s.pc.Done? { DoneStays(t, ts[n]); } else { PendingTurn(t, ts[n]); }
    }
  }

  /* ----- starvation is reachable ----- */

  const QUIET := Moment(None, false, false, None, None)
  const FAILS := Moment(Some(Some(Service(7))), false, false, None, None)
  const ELAPSES := Moment(None, true, false, None, None)

  const SMALL := Config(1, 2, 2)

  /** One full batch starts, two messages follow, the batch fails, and one of the two is refused. */
  const BEFORE := [ClientTurn(Acquire(0)), ClientTurn(Call(0, 1)), LoopTurn(QUIET),
                   ClientTurn(Acquire(0)), ClientTurn(Call(0, 1)), ClientTurn(Acquire(1)), ClientTurn(Call(1, 1)),
                   LoopTurn(FAILS), LoopTurn(QUIET)]

  lemma {:induction false} OneTurn(l: Loop, ts: seq<Turn>, n: nat)
    requires n < |ts|
    ensures Turns(l, ts[..n + 1]) == Take(Turns(l, ts[..n]), ts[n])
  {
    assert ts[..n + 1][..n] == ts[..n];
  }

  /** A handle takes a permit and sends one message. */
  lemma {:induction false} SendsOne(l: Loop, h: nat, weight: nat)
    requires !l.s.rxClosed && !l.s.semClosed && l.s.available > 0 && h !in l.s.holders
    ensures Take(Take(l, ClientTurn(Acquire(h))), ClientTurn(Call(h, weight)))
         == l.(s := l.s.(available := l.s.available - 1, queue := l.s.queue + [Message(l.s.sent, weight)],
                         sent := l.s.sent + 1))
  {
    assert l.s.holders + {h} - {h} == l.s.holders;
  }

  lemma {:induction false} SendsTurns(l: Loop, ts: seq<Turn>, n: nat, h: nat, weight: nat)
    requires n + 1 < |ts| && ts[n] == ClientTurn(Acquire(h)) && ts[n + 1] == ClientTurn(Call(h, weight))
    ensures Turns(l, ts[..n + 2]) == Take(Take(Turns(l, ts[..n]), ClientTurn(Acquire(h))), ClientTurn(Call(h, weight)))
  {
    OneTurn(l, ts, n);
    OneTurn(l, ts, n + 1);
  }

  /** The first message is sent. */
  const FIRST := Start(SMALL).(available := 1, queue := [Message(0, 1)], sent := 1)

  lemma {:induction false} FirstSent()
    ensures Turns(Loop(Start(SMALL), false), BEFORE[..2]) == Loop(FIRST, false) && Counted(FIRST)
  {
    var l := Loop(Start(SMALL), false);
    SendsTurns(l, BEFORE, 0, 0, 1);
    SendsOne(l, 0, 1);
    assert [] + [Message(0, 1)] == [Message(0, 1)];
    StartIsSound(SMALL);
    TurnsAreSound(l, BEFORE[..2]);
  }

  /** The loop accepts it, which fills and starts a batch. */
  const STARTED := Start(SMALL).(running := 1, sent := 1, answers := map[0 := Accepted])

  lemma {:induction false} FirstTaken()
    requires Counted(FIRST)
    ensures Iterate(Loop(FIRST, false), QUIET) == Loop(STARTED, false)
  {
    assert FIRST.queue[1..] == [];
    MessageKept(FIRST, None, None);
  }

  lemma {:induction false} FirstBatch()
    ensures Turns(Loop(Start(SMALL), false), BEFORE[..3]) == Loop(STARTED, false)
  {
    FirstSent();
    FirstTaken();
    OneTurn(Loop(Start(SMALL), false), BEFORE, 2);
  }

  const SECOND := STARTED.(sent := 2, available := 1, queue := [Message(1, 1)])

  lemma {:induction false} SecondSent()
    ensures Turns(Loop(Start(SMALL), false), BEFORE[..5]) == Loop(SECOND, false)
  {
    FirstBatch();
    SendsTurns(Loop(Start(SMALL), false), BEFORE, 3, 0, 1);
    SendsOne(Loop(STARTED, false), 0, 1);
    assert [] + [Message(1, 1)] == [Message(1, 1)];
  }

  const WAITING := STARTED.(sent := 3, available := 0, queue := [Message(1, 1), Message(2, 1)])

  lemma {:induction false} TwoWaiting()
    ensures Turns(Loop(Start(SMALL), false), BEFORE[..7]) == Loop(WAITING, false)
  {
    SecondSent();
    SendsTurns(Loop(Start(SMALL), false), BEFORE, 5, 1, 1);
    SendsOne(Loop(SECOND, false), 1, 1);
    assert [Message(1, 1)] + [Message(2, 1)] == [Message(1, 1), Message(2, 1)];
  }

  /** The failing batch leaves the timer off; refusing the next message arms it, with one message still waiting. */
  lemma {:induction false} ArmedWithOneWaiting()
    ensures var f, t := Turns(Loop(Start(SMALL), false), BEFORE[..8]), Turns(Loop(Start(SMALL), false), BEFORE);
            && FailedHead(f) && !f.s.timer && !AnyRefused(f.s)
            && FailedHead(t) && t.s.timer && t.s.queue == [Message(2, 1)] && 2 !in t.s.answers
  {
    var l := Loop(Start(SMALL), false);
    TwoWaiting();
    StartIsSound(SMALL);
    OneTurn(l, BEFORE, 7);
    OneTurn(l, BEFORE, 8);
    assert BEFORE[..9] == BEFORE;
    TurnsAreSound(l, BEFORE[..7]);
    TurnsAreSound(l, BEFORE[..8]);
    TurnsAreSound(l, BEFORE);
    BatchKept(Turns(l, BEFORE[..7]).s, Some(Service(7)));
    var f := Turns(l, BEFORE[..8]);
    assert f.s.answers == map[0 := Accepted];
    FailedMessage(f.s, None, None);
  }

  lemma {:induction false} TurnsAppend(l: Loop, a: seq<Turn>, b: seq<Turn>)
    ensures Turns(l, a + b) == Turns(Turns(l, a), b)
  {
    if b == [] {
      assert a + b == a;
    } else {
      var n := |b| - 1;
      assert (a + b)[..|a + b| - 1] == a + b[..n] && (a + b)[|a + b| - 1] == b[n];
      TurnsAppend(l, a, b[..n]);
    }
  }

  /** From any failed loop head with an armed timer, if the timer elapses before the next look. */
  lemma {:induction false} StarvesFrom(l: Loop, before: seq<Turn>, ts: seq<Turn>)
    requires FailedHead(Turns(l, before)) && Turns(l, before).s.timer
    ensures var t := Turns(l, before + [LoopTurn(ELAPSES)] + ts);
            Stuck(t) && t.s.queue == Turns(l, before).s.queue && t.s.answers == Turns(l, before).s.answers
  {
    var t := Turns(l, before);
    TurnsAppend(l, before, [LoopTurn(ELAPSES)]);
    TurnsAppend(l, before + [LoopTurn(ELAPSES)], ts);
    assert [LoopTurn(ELAPSES)][..0] == [];
    assert Turns(t, [LoopTurn(ELAPSES)]) == Take(t, LoopTurn(ELAPSES));
    MeetingSticks(t, LoopTurn(ELAPSES));
    Starved(Take(t, LoopTurn(ELAPSES)), ts);
  }

  /** A reachable worker whose timer elapses then: the waiting message stays unanswered through every later turn. */
  lemma {:induction false} StarvationIsReachable(ts: seq<Turn>)
    ensures var t := Turns(Loop(Start(SMALL), false), BEFORE + [LoopTurn(ELAPSES)] + ts).s;
            t.pc.Head? && t.queue == [Message(2, 1)] && 2 !in t.answers
  {
    ArmedWithOneWaiting();
    StarvesFrom(Loop(Start(SMALL), false), BEFORE, ts);
  }
}
