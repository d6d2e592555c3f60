/**
 The batch worker and its clients as interleaved steps.  A failing worker first exposes its error,
 then closes the channel, then the semaphore, and only then answers; clients may act in between.
 */
module BatchProtocol {
  import opened Common

  datatype Error = Service(code: nat) | Closed
  datatype Answer = Accepted | Refused(error: Error)
  datatype Message = Message(id: nat, weight: nat)

  /** What a worker does once its failure is registered. */
  datatype Then =
    | AnswerThen(message: Message, isNew: bool)
    | HeadThen(held: bool)
    | DrainThen

  /** Where the worker stands. */
  datatype Pc =
    | Head
    | Ready(message: Message, isNew: bool)       // waits for the service to take a message
    | Flush(held: bool)                          // waits for the service to take a flush
    | Failing(error: Error, stage: nat, next: Then)
    | Draining
    | Done

  datatype Config = Config(maxWeight: nat, maxRunning: nat, permits: nat)

  datatype System = System(
    cfg: Config,
    queue: seq<Message>, rxClosed: bool,
    available: nat, semClosed: bool,
    stored: Option<Error>,                       // the shared error handle
    pc: Pc, pending: nat, timer: bool, running: nat, failed: Option<Error>,
    holders: set<nat>,                           // client handles that hold a permit
    items: seq<nat>,                             // weights since the last flush
    sent: nat,                                   // messages 0 .. sent - 1 entered the channel
    answers: map<nat, Answer>, lost: set<nat>,
    readings: seq<Option<Error>>)                 // what clients read from the error handle

  const QUEUE_BATCH_LIMIT: nat := 64

  /** The configuration of a new pair of service and worker. */
  function Configure(maxWeight: nat, maxBatches: nat): Config {
    var weight := if maxWeight == 0 then 1 else maxWeight;
    var queued := if maxBatches == 0 then 1 else Min(maxBatches, QUEUE_BATCH_LIMIT);
    Config(weight, maxBatches, weight * queued)
  }

  function Start(cfg: Config): System {
    System(cfg, [], false, cfg.permits, false, None, Head, 0, false, 0, None, {}, [], 0, map[], {}, [])
  }

  datatype Action =
    | BatchFinished(outcome: Option<Error>)
    | TimerFires
    | Receive
    | ServiceAnswers(outcome: Option<Error>)
    | FailStep
    | DrainStep
    | DropWorker
    | PollClosed
    | Acquire(handle: nat)
    | Call(handle: nat, weight: nat)
    | Release(handle: nat)

  /* ----- worker steps ----- */

  function HeldId(pc: Pc): set<nat> {
    match pc
    case Ready(m, _) => {m.id}
    case Failing(_, _, AnswerThen(m, _)) => {m.id}
    case _ => {}
  }

  /** Permits of messages that left the channel and are still being processed. */
  function HeldPermits(pc: Pc): nat {
    match pc
    case Ready(_, _) => 1
    case Flush(held) => if held then 1 else 0
    case Failing(_, _, AnswerThen(_, _)) => 1
    case Failing(_, _, HeadThen(held)) => if held then 1 else 0
    case _ => 0
  }

  /** The end of the receive branch: flush a full batch, or start the timer of a new one. */
  function AfterMessage(s: System, isNew: bool): System {
    if s.pending >= s.cfg.maxWeight && s.failed.None? then s.(pc := Flush(true))
    else
      s.(pc := Head, available := s.available + 1,
         timer := s.timer || (isNew && s.pending < s.cfg.maxWeight))
  }

  function Fail(s: System, e: Error, next: Then): System { s.(pc := Failing(e, 0, next)) }

  /** After a failure is registered: answer the message in hand, go on, or drain the channel. */
  function AfterFailure(s: System, next: Then): System {
    match next
    case AnswerThen(m, isNew) =>
      if s.failed.None? then s
      else AfterMessage(s.(answers := s.answers[m.id := Refused(s.failed.value)]), isNew)
    case HeadThen(held) => s.(pc := Head, available := s.available + if held then 1 else 0)
    case DrainThen => s.(pc := Draining)
  }

  /** One step of registering a failure; a second failure is ignored. */
  function FailNext(s: System): System
    requires s.pc.Failing?
  {
    var e, next := s.pc.error, s.pc.next;
    if s.pc.stage == 0 then
      (if s.stored.Some? then AfterFailure(s, next) else s.(stored := Some(e), pc := Failing(e, 1, next)))
    else if s.pc.stage == 1 then s.(rxClosed := true, pc := Failing(e, 2, next))
    else if s.pc.stage == 2 then s.(semClosed := true, pc := Failing(e, 3, next))
    else AfterFailure(s.(timer := false, failed := Some(e)), next)
  }

  function OnBatchFinished(s: System, outcome: Option<Error>): System {
    if s.pc != Head || s.running == 0 then s
    else
      var s := s.(running := s.running - 1);
      if outcome.Some? then Fail(s, outcome.value, HeadThen(false)) else s
  }

  /** An elapsed timer flushes the batch; a failed worker skips the flush and keeps its timer. */
  function OnTimer(s: System): System {
    if s.pc != Head || !s.timer || s.failed.Some? then s else s.(pc := Flush(false))
  }

  function OnReceive(s: System): System {
    if s.pc != Head || s.running >= s.cfg.maxRunning || s.queue == [] then s
    else
      var m, isNew := s.queue[0], s.pending == 0;
      var s := s.(queue := s.queue[1..]);
      if s.failed.Some? then AfterMessage(s.(answers := s.answers[m.id := Refused(s.failed.value)]), isNew)
      else s.(pc := Ready(m, isNew))
  }

  function OnMessageReady(s: System, m: Message, isNew: bool, outcome: Option<Error>): System {
    if outcome.Some? then Fail(s, outcome.value, AnswerThen(m, isNew))
    else
      AfterMessage(s.(pending := s.pending + m.weight, items := s.items + [m.weight],
                      answers := s.answers[m.id := Accepted]), isNew)
  }

  function OnFlushReady(s: System, held: bool, outcome: Option<Error>): System {
    if outcome.Some? then Fail(s, outcome.value, HeadThen(held))
    else
      s.(pc := Head, running := s.running + 1, pending := 0, items := [], timer := false,
         available := s.available + if held then 1 else 0)
  }

  function OnDrain(s: System): System {
    if s.pc != Draining then s
    else if s.queue == [] then s.(pc := Done)
    else if s.failed.None? then s
    else
      s.(queue := s.queue[1..], available := s.available + 1,
         answers := s.answers[s.queue[0].id := Refused(s.failed.value)])
  }

  /** The worker task ends or is cancelled; a message in hand is lost, the queued ones are answered. */
  function OnDrop(s: System): System {
    if s.pc.Head? || s.pc.Ready? || s.pc.Flush? then
      Fail(s.(available := s.available + HeldPermits(s.pc), lost := s.lost + HeldId(s.pc)), Closed, DrainThen)
    else s
  }

  /* ----- client steps ----- */

  function OnPoll(s: System): System { if s.rxClosed then s.(readings := s.readings + [s.stored]) else s }

  function OnRelease(s: System, h: nat): System {
    if h in s.holders then s.(holders := s.holders - {h}, available := s.available + 1) else s
  }

  /** A handle drops its previous permit before it asks for another. */
  function OnAcquire(s: System, h: nat): System {
    var s := OnRelease(s, h);
    if s.semClosed then s.(readings := s.readings + [s.stored])
    else if s.available == 0 then s
    else s.(holders := s.holders + {h}, available := s.available - 1)
  }

  function OnCall(s: System, h: nat, weight: nat): System {
    if h !in s.holders then s
    else if s.rxClosed then
      s.(holders := s.holders - {h}, available := s.available + 1, readings := s.readings + [s.stored])
    else
      s.(holders := s.holders - {h}, queue := s.queue + [Message(s.sent, weight)], sent := s.sent + 1)
  }

  function Next(s: System, a: Action): System {
    match a
    case BatchFinished(outcome) => OnBatchFinished(s, outcome)
    case TimerFires => OnTimer(s)
    case Receive => OnReceive(s)
    case ServiceAnswers(outcome) =>
      (match s.pc
       case Ready(m, isNew) => OnMessageReady(s, m, isNew, outcome)
       case Flush(held) => OnFlushReady(s, held, outcome)
       case _ => s)
    case FailStep => if s.pc.Failing? then FailNext(s) else s
    case DrainStep => OnDrain(s)
    case DropWorker => OnDrop(s)
    case PollClosed => OnPoll(s)
    case Acquire(h) => OnAcquire(s, h)
    case Call(h, weight) => OnCall(s, h, weight)
    case Release(h) => OnRelease(s, h)
  }

  function Run(s: System, actions: seq<Action>): System {
    if actions == [] then s else Next(Run(s, actions[..|actions| - 1]), actions[|actions| - 1])
  }

  /* ----- what every step keeps ----- */

  /** Every permit is available, held by a ready handle, in the channel, or with the message in hand. */
  predicate PermitsConserved(s: System) {
    s.available + |s.holders| + |s.queue| + HeldPermits(s.pc) == s.cfg.permits
  }

  /** The error is exposed before anything closes, and everything is closed before the worker answers with it. */
  predicate Ordered(s: System) {
    && (s.semClosed ==> s.rxClosed) && (s.rxClosed ==> s.stored.Some?)
    && (s.failed.Some? ==> s.failed == s.stored && s.semClosed)
    && (match s.pc
        case Head => s.stored == s.failed
        case Ready(_, _) => s.stored == s.failed == None
        case Flush(_) => s.stored == s.failed == None
        case Failing(e, stage, next) =>
          && stage <= 3
          && (stage == 0 ==> s.stored == s.failed && (next.AnswerThen? ==> s.failed.None?))
          && (stage > 0 ==> s.stored == Some(e) && s.failed.None?)
          && (stage > 1 ==> s.rxClosed) && (stage > 2 ==> s.semClosed)
        case Draining => s.failed.Some?
        case Done => s.failed.Some? && s.queue == [])
  }

  /** Whatever a client reads is the first stored error, never the default. */
  predicate ReadsFirstError(s: System) {
    forall i :: 0 <= i < |s.readings| ==> s.readings[i].Some? && s.readings[i] == s.stored
  }

  function QueueIds(queue: seq<Message>): set<nat> { set i | 0 <= i < |queue| :: queue[i].id }

  predicate DistinctIds(queue: seq<Message>) {
    forall i, j :: 0 <= i < j < |queue| ==> queue[i].id != queue[j].id
  }

  function Upto(n: nat): (ids: set<nat>)
    ensures forall i: nat :: i in ids <==> i < n
  {
    if n == 0 then {} else Upto(n - 1) + {n - 1}
  }

  /** Every message sent is in exactly one place: answered, queued, in hand, or lost with a dropped worker. */
  predicate Accounted(s: System) {
    && DistinctIds(s.queue)
    && Upto(s.sent) == s.answers.Keys + QueueIds(s.queue) + HeldId(s.pc) + s.lost
    && s.answers.Keys !! QueueIds(s.queue) !! HeldId(s.pc) !! s.lost
  }

  predicate RefusedWithFirst(s: System) {
    forall id :: id in s.answers && s.answers[id].Refused? ==> s.stored == Some(s.answers[id].error)
  }

  function Sum(weights: seq<nat>): nat {
    if weights == [] then 0 else Sum(weights[..|weights| - 1]) + weights[|weights| - 1]
  }

  /** The batch policy of a worker that has not failed. */
  predicate Scheduled(s: System) {
    && s.running <= s.cfg.maxRunning
    && (s.failed.None? ==>
        && s.pending == Sum(s.items)
        && (s.timer ==> s.running < s.cfg.maxRunning)
        && (s.pending > 0 && (s.pc.Head? || s.pc.Ready?) ==> s.timer)
        && (s.pc.Head? ==> s.pending < s.cfg.maxWeight)
        && (s.pc.Ready? ==>
            s.pending < s.cfg.maxWeight && s.running < s.cfg.maxRunning && s.pc.isNew == (s.pending == 0))
        && (s.pc.Flush? ==> s.running < s.cfg.maxRunning))
  }

  predicate Counted(s: System) { PermitsConserved(s) && Ordered(s) && Scheduled(s) && s.cfg.maxWeight > 0 }

  predicate Answered(s: System) { Accounted(s) && RefusedWithFirst(s) && ReadsFirstError(s) }

  /** The history only grows: the first error and every answer stay what they were. */
  predicate Extends(s: System, t: System) {
    && t.cfg == s.cfg && (s.stored.Some? ==> t.stored == s.stored) && s.sent <= t.sent
    && s.answers.Keys <= t.answers.Keys && (forall id :: id in s.answers ==> t.answers[id] == s.answers[id])
  }

  /* ----- queue identifiers ----- */

  lemma {:induction false} QueueFirst(queue: seq<Message>)
    requires queue != [] && DistinctIds(queue)
    ensures DistinctIds(queue[1..]) && QueueIds(queue) == {queue[0].id} + QueueIds(queue[1..])
    ensures queue[0].id !in QueueIds(queue[1..])
  {
    var rest := queue[1..];
    forall id ensures id in QueueIds(queue) <==> id in {queue[0].id} + QueueIds(rest) {
      if id in QueueIds(queue) {
        var i :| 0 <= i < |queue| && queue[i].id == id;
        if i > 0 { assert rest[i - 1].id == id; }
      }
      if id in QueueIds(rest) {
        var i :| 0 <= i < |rest| && rest[i].id == id;
        assert queue[i + 1].id == id;
      }
    }
  }

  lemma {:induction false} QueueLast(queue: seq<Message>, m: Message)
    requires DistinctIds(queue) && m.id !in QueueIds(queue)
    ensures DistinctIds(queue + [m]) && QueueIds(queue + [m]) == QueueIds(queue) + {m.id}
  {
    var more := queue + [m];
    forall id ensures id in QueueIds(more) <==> id in QueueIds(queue) + {m.id} {
      if id in QueueIds(queue) {
        var i :| 0 <= i < |queue| && queue[i].id == id;
        assert more[i].id == id;
      }
      assert more[|queue|].id == m.id;
    }
    forall i, j | 0 <= i < j < |more| ensures more[i].id != more[j].id {
      if j == |queue| { assert queue[i].id in QueueIds(queue); }
    }
  }

  /* ----- the counting invariants, step by step ----- */

  lemma {:induction false} HolderMoves(holders: set<nat>, h: nat)
    ensures h in holders ==> |holders - {h}| == |holders| - 1
    ensures h !in holders ==> |holders + {h}| == |holders| + 1
  {
  }

  lemma {:induction false} CountedRelease(s: System, h: nat)
    requires Counted(s)
    ensures Counted(OnRelease(s, h)) && h !in OnRelease(s, h).holders
  {
    HolderMoves(s.holders, h);
  }

  lemma {:induction false} CountedAcquire(s: System, h: nat)
    requires Counted(s)
    ensures Counted(OnAcquire(s, h))
  {
    CountedRelease(s, h);
    HolderMoves(OnRelease(s, h).holders, h);
  }

  lemma {:induction false} CountedCall(s: System, h: nat, weight: nat)
    requires Counted(s)
    ensures Counted(OnCall(s, h, weight))
  {
    HolderMoves(s.holders, h);
  }

  lemma {:induction false} CountedFailEarly(s: System)
    requires Counted(s) && s.pc.Failing? && s.pc.stage < 3
    ensures Counted(FailNext(s))
  {
  }

  lemma {:induction false} CountedFailLast(s: System)
    requires Counted(s) && s.pc.Failing? && s.pc.stage == 3
    ensures Counted(FailNext(s))
  {
  }

  lemma {:induction false} CountedMessage(s: System, m: Message, isNew: bool, outcome: Option<Error>)
    requires Counted(s) && s.pc == Ready(m, isNew)
    ensures Counted(OnMessageReady(s, m, isNew, outcome))
  {
    assert (s.items + [m.weight])[..|s.items|] == s.items;
  }

  lemma {:induction false} CountedFlush(s: System, held: bool, outcome: Option<Error>)
    requires Counted(s) && s.pc == Flush(held)
    ensures Counted(OnFlushReady(s, held, outcome))
  {
  }

  lemma {:induction false} CountedReceive(s: System)
    requires Counted(s)
    ensures Counted(OnReceive(s))
  {
  }

  lemma {:induction false} CountedBatch(s: System, outcome: Option<Error>)
    requires Counted(s)
    ensures Counted(OnBatchFinished(s, outcome))
  {
  }

  lemma {:induction false} CountedDrain(s: System)
    requires Counted(s)
    ensures Counted(OnDrain(s)) && Counted(OnTimer(s))
  {
  }

  lemma {:induction false} CountedDrop(s: System)
    requires Counted(s)
    ensures Counted(OnDrop(s))
  {
  }

  lemma {:induction false} CountedStep(s: System, a: Action)
    requires Counted(s)
    ensures Counted(Next(s, a))
  {
    match a
    case Receive => CountedReceive(s);
    case BatchFinished(outcome) => CountedBatch(s, outcome);
    case TimerFires => CountedDrain(s);
    case DrainStep => CountedDrain(s);
    case DropWorker => CountedDrop(s);
    case FailStep => if s.pc.Failing? { if s.pc.stage == 3 { CountedFailLast(s); } else { CountedFailEarly(s); } }
    case ServiceAnswers(outcome) =>
      if s.pc.Ready? { CountedMessage(s, s.pc.message, s.pc.isNew, outcome); }
      else if s.pc.Flush? { CountedFlush(s, s.pc.held, outcome); }
    case PollClosed =>
    case Acquire(h) => CountedAcquire(s, h);
    case Call(h, weight) => CountedCall(s, h, weight);
    case Release(h) => CountedRelease(s, h);
  }

  /* ----- the answer invariants, step by step ----- */

  /** Steps that touch only permits and readings. */
  lemma {:induction false} AnsweredReading(s: System, t: System)
    requires Answered(s) && Ordered(s)
    requires t == s.(holders := t.holders, available := t.available, readings := t.readings)
    requires t.readings == s.readings || (s.rxClosed && t.readings == s.readings + [s.stored])
    ensures Answered(t) && Extends(s, t)
  {
    forall i | 0 <= i < |t.readings| ensures t.readings[i].Some? && t.readings[i] == t.stored {
      if i < |s.readings| { assert t.readings[i] == s.readings[i]; }
    }
  }

  lemma {:induction false} AnsweredCall(s: System, h: nat, weight: nat)
    requires Answered(s) && Ordered(s)
    ensures Answered(OnCall(s, h, weight)) && Extends(s, OnCall(s, h, weight))
  {
    if h in s.holders && s.rxClosed {
      AnsweredReading(s, OnCall(s, h, weight));
    } else if h in s.holders {
      assert s.sent !in Upto(s.sent) && Upto(s.sent + 1) == Upto(s.sent) + {s.sent};
      QueueLast(s.queue, Message(s.sent, weight));
    }
  }

  lemma {:induction false} AnsweredFail(s: System)
    requires Answered(s) && Ordered(s) && s.pc.Failing?
    ensures Answered(FailNext(s)) && Extends(s, FailNext(s))
  {
    if s.pc.next.AnswerThen? && s.pc.stage == 3 { assert s.pc.next.message.id !in s.answers; }
  }

  lemma {:induction false} AnsweredMessage(s: System, m: Message, isNew: bool, outcome: Option<Error>)
    requires Answered(s) && Ordered(s) && s.pc == Ready(m, isNew)
    ensures Answered(OnMessageReady(s, m, isNew, outcome)) && Extends(s, OnMessageReady(s, m, isNew, outcome))
  {
    assert m.id !in s.answers;
  }

  lemma {:induction false} AnsweredQueue(s: System)
    requires Answered(s) && Ordered(s)
    ensures Answered(OnReceive(s)) && Extends(s, OnReceive(s))
    ensures Answered(OnDrain(s)) && Extends(s, OnDrain(s))
  {
    if s.queue != [] { QueueFirst(s.queue); }
  }

  /** Steps that touch only the worker's own counters and its place, with the same message in hand. */
  lemma {:induction false} AnsweredMoving(s: System, t: System)
    requires Answered(s)
    requires t == s.(pc := t.pc, pending := t.pending, items := t.items, timer := t.timer, running := t.running,
                     available := t.available)
    requires HeldId(t.pc) == HeldId(s.pc)
    ensures Answered(t) && Extends(s, t)
  {
  }

  lemma {:induction false} AnsweredDrop(s: System)
    requires Answered(s) && Ordered(s)
    ensures Answered(OnDrop(s)) && Extends(s, OnDrop(s))
  {
    assert s.answers.Keys + QueueIds(s.queue) + {} + (s.lost + HeldId(s.pc))
        == s.answers.Keys + QueueIds(s.queue) + HeldId(s.pc) + s.lost;
  }

  lemma {:induction false} AnsweredPermit(s: System, h: nat)
    requires Answered(s) && Ordered(s)
    ensures Answered(OnAcquire(s, h)) && Extends(s, OnAcquire(s, h))
    ensures Answered(OnRelease(s, h)) && Extends(s, OnRelease(s, h))
  {
    AnsweredReading(s, OnAcquire(s, h));
    AnsweredReading(s, OnRelease(s, h));
  }

  lemma {:induction false} AnsweredTick(s: System, outcome: Option<Error>)
    requires Answered(s) && Ordered(s)
    ensures Answered(OnBatchFinished(s, outcome)) && Extends(s, OnBatchFinished(s, outcome))
    ensures Answered(OnTimer(s)) && Extends(s, OnTimer(s))
  {
    AnsweredMoving(s, OnBatchFinished(s, outcome));
    AnsweredMoving(s, OnTimer(s));
  }

  lemma {:induction false} AnsweredFlush(s: System, held: bool, outcome: Option<Error>)
    requires Answered(s) && s.pc == Flush(held)
    ensures Answered(OnFlushReady(s, held, outcome)) && Extends(s, OnFlushReady(s, held, outcome))
  {
    AnsweredMoving(s, OnFlushReady(s, held, outcome));
  }

  lemma {:induction false} AnsweredPoll(s: System)
    requires Answered(s) && Ordered(s)
    ensures Answered(OnPoll(s)) && Extends(s, OnPoll(s))
  {
    AnsweredReading(s, OnPoll(s));
  }

  lemma {:induction false} AnsweredStep(s: System, a: Action)
    requires Answered(s) && Ordered(s)
    ensures Answered(Next(s, a)) && Extends(s, Next(s, a))
  {
    match a
    case Receive => AnsweredQueue(s);
    case DrainStep => AnsweredQueue(s);
    case BatchFinished(outcome) => AnsweredTick(s, outcome);
    case TimerFires => AnsweredTick(s, None);
    case DropWorker => AnsweredDrop(s);
    case FailStep => if s.pc.Failing? { AnsweredFail(s); }
    case ServiceAnswers(outcome) =>
      if s.pc.Ready? { AnsweredMessage(s, s.pc.message, s.pc.isNew, outcome); }
      else if s.pc.Flush? { AnsweredFlush(s, s.pc.held, outcome); }
    case PollClosed => AnsweredPoll(s);
    case Acquire(h) => AnsweredPermit(s, h);
    case Call(h, weight) => AnsweredCall(s, h, weight);
    case Release(h) => AnsweredPermit(s, h);
  }

  /* ----- every run ----- */

  predicate Safe(s: System) { Counted(s) && Answered(s) }

  lemma {:induction false} StartIsSafe(cfg: Config)
    requires cfg.maxWeight > 0
    ensures Safe(Start(cfg))
  {
  }

  lemma {:induction false} ExtendsTransitive(s: System, t: System, u: System)
    requires Extends(s, t) && Extends(t, u)
    ensures Extends(s, u)
  {
  }

  lemma {:induction false} RunIsSafe(s: System, actions: seq<Action>)
    requires Safe(s)
    ensures Safe(Run(s, actions)) && Extends(s, Run(s, actions))
  {
    if actions == [] {
    } else {
      var n := |actions| - 1;
      var t := Run(s, actions[..n]);
      RunIsSafe(s, actions[..n]);
      CountedStep(t, actions[n]);
      AnsweredStep(t, actions[n]);
      ExtendsTransitive(s, t, Next(t, actions[n]));
    }
  }

  /** The documented bound on concurrent requests. */
  function Capacity(maxWeight: nat, maxBatches: nat): nat {
    (if maxWeight < 1 then 1 else maxWeight)
    * (if maxBatches < 1 then 1 else if maxBatches > 64 then 64 else maxBatches)
  }

  /**
   Permits and scheduling over every interleaving: exactly max(weight, 1) * clamp(batches, 1, 64) permits exist, so
   the unbounded channel never holds more messages; a worker that has not failed keeps less than a full batch
   pending at its loop head, and never runs more batches than configured.
   */
  lemma {:induction false} BatchLimits(maxWeight: nat, maxBatches: nat, actions: seq<Action>)
    ensures var cfg := Configure(maxWeight, maxBatches);
            var s := Run(Start(cfg), actions);
            && s.available + |s.holders| + |s.queue| + HeldPermits(s.pc) == Capacity(maxWeight, maxBatches)
            && |s.queue| <= Capacity(maxWeight, maxBatches)
            && s.running <= maxBatches
            && (s.failed.None? ==> s.pending == Sum(s.items))
            && (s.failed.None? && s.pc.Head? ==>
                s.pending < (if maxWeight < 1 then 1 else maxWeight) && (s.pending > 0 ==> s.timer))
            && (s.failed.None? && s.timer ==> s.running < maxBatches)
  {
    StartIsSafe(Configure(maxWeight, maxBatches));
    RunIsSafe(Start(Configure(maxWeight, maxBatches)), actions);
  }

  /** The first `n` handles ask for a permit, one after the other. */
  function Polls(n: nat): seq<Action> { seq(n, (i: nat) => Acquire(i)) }

  lemma {:induction false} PollsGrant(cfg: Config, n: nat)
    requires n <= cfg.permits
    ensures Run(Start(cfg), Polls(n)) == Start(cfg).(available := cfg.permits - n, holders := Upto(n))
  {
    if n == 0 {
    } else {
      assert Polls(n)[..n - 1] == Polls(n - 1);
      PollsGrant(cfg, n - 1);
    }
  }

  /** The capacity is reached: this many handles can be ready at once, and one more has to wait. */
  lemma {:induction false} CapacityIsReached(maxWeight: nat, maxBatches: nat, n: nat)
    requires n <= Capacity(maxWeight, maxBatches)
    ensures var s := Run(Start(Configure(maxWeight, maxBatches)), Polls(n));
            && s.holders == Upto(n) && s.available == Capacity(maxWeight, maxBatches) - n
            && (Next(s, Acquire(n)) == s <==> n == Capacity(maxWeight, maxBatches))
  {
    PollsGrant(Configure(maxWeight, maxBatches), n);
  }

  /** The first error that is exposed is the only one anybody ever sees. */
  lemma {:induction false} FirstErrorOnly(cfg: Config, actions: seq<Action>)
    requires cfg.maxWeight > 0
    ensures var s := Run(Start(cfg), actions);
            && (forall i :: 0 <= i < |s.readings| ==> s.readings[i].Some? && s.readings[i] == s.stored)
            && (forall id :: id in s.answers && s.answers[id].Refused? ==> s.stored == Some(s.answers[id].error))
            && (s.rxClosed || s.semClosed ==> s.stored.Some?)
  {
    StartIsSafe(cfg);
    RunIsSafe(Start(cfg), actions);
  }

  /** Once the worker has ended, every message sent has been answered, or was in its hand when it was dropped. */
  lemma {:induction false} DoneAnswersAll(cfg: Config, actions: seq<Action>, id: nat)
    requires cfg.maxWeight > 0 && Run(Start(cfg), actions).pc.Done? && id < Run(Start(cfg), actions).sent
    ensures id in Run(Start(cfg), actions).answers || id in Run(Start(cfg), actions).lost
  {
    StartIsSafe(cfg);
    RunIsSafe(Start(cfg), actions);
    assert id in Upto(Run(Start(cfg), actions).sent);
  }

  /* ----- after a failure ----- */

  /** Nothing new is accepted, and nothing is lost, once an error is exposed. */
  predicate Frozen(s: System, t: System) {
    && t.lost == s.lost
    && forall id :: id in t.answers && t.answers[id].Accepted? ==> id in s.answers && s.answers[id].Accepted?
  }

  lemma {:induction false} FrozenFail(s: System)
    requires Ordered(s) && s.stored.Some? && s.pc.Failing?
    ensures Frozen(s, FailNext(s))
  {
  }

  lemma {:induction false} FrozenStep(s: System, a: Action)
    requires Ordered(s) && s.stored.Some?
    ensures Frozen(s, Next(s, a))
  {
    if a.FailStep? && s.pc.Failing? { FrozenFail(s); }
  }

  lemma {:induction false} FrozenTransitive(s: System, t: System, u: System)
    requires Frozen(s, t) && Frozen(t, u)
    ensures Frozen(s, u)
  {
  }

  lemma {:induction false} FrozenRun(s: System, actions: seq<Action>)
    requires Safe(s) && s.stored.Some?
    ensures Frozen(s, Run(s, actions))
  {
    if actions == [] {
    } else {
      var n := |actions| - 1;
      var t := Run(s, actions[..n]);
      FrozenRun(s, actions[..n]);
      RunIsSafe(s, actions[..n]);
      FrozenStep(t, actions[n]);
      FrozenTransitive(s, t, Next(t, actions[n]));
    }
  }

  /**
   The failure protocol.  From the moment an error is exposed, in every interleaving with clients, no
   message receives Ok any more; a message that waits in the channel is only ever answered with that first
   error, and is answered by the time the worker ends.
   */
  lemma {:induction false} FailureProtocol(cfg: Config, before: seq<Action>, after: seq<Action>, id: nat)
    requires cfg.maxWeight > 0
    requires Run(Start(cfg), before).stored.Some? && id in QueueIds(Run(Start(cfg), before).queue)
    ensures var s := Run(Start(cfg), before);
            var t := Run(s, after);
            && (id in t.answers ==> t.answers[id] == Refused(s.stored.value))
            && (t.pc.Done? ==> id in t.answers)
            && (forall k :: k in t.answers && t.answers[k].Accepted? ==> k in s.answers && s.answers[k].Accepted?)
  {
    var s := Run(Start(cfg), before);
    StartIsSafe(cfg);
    RunIsSafe(Start(cfg), before);
    RunIsSafe(s, after);
    FrozenRun(s, after);
    QueuedIsOpen(s, id);
    RefusedAtEnd(s, Run(s, after), id);
  }

  lemma {:induction false} QueuedIsOpen(s: System, id: nat)
    requires Accounted(s) && id in QueueIds(s.queue)
    ensures id !in s.answers && id !in s.lost && id < s.sent
  {
    assert id in Upto(s.sent);
  }

  lemma {:induction false} RefusedAtEnd(s: System, t: System, id: nat)
    requires Extends(s, t) && Frozen(s, t) && Safe(t) && s.stored.Some?
    requires id !in s.answers && id !in s.lost && id < s.sent
    ensures id in t.answers ==> t.answers[id] == Refused(s.stored.value)
    ensures t.pc.Done? ==> id in t.answers
  {
    assert id in Upto(t.sent);
    if t.pc.Done? { assert QueueIds(t.queue) == {} && HeldId(t.pc) == {}; }
  }

  /* ----- positive weights ----- */

  /** Every message on its way weighs something, and the timer runs exactly while something is pending. */
  predicate Weighted(s: System) {
    && (forall i :: 0 <= i < |s.queue| ==> s.queue[i].weight > 0)
    && (s.pc.Ready? ==> s.pc.message.weight > 0)
    && (s.stored.None? && (s.pc.Head? || s.pc.Ready?) ==> (s.timer <==> s.pending > 0))
  }

  predicate Positive(a: Action) { a.Call? ==> a.weight > 0 }

  lemma {:induction false} WeightedFail(s: System)
    requires Weighted(s) && Ordered(s) && s.pc.Failing?
    ensures Weighted(FailNext(s))
  {
  }

  lemma {:induction false} WeightedService(s: System, outcome: Option<Error>)
    requires Weighted(s) && Counted(s)
    ensures Weighted(Next(s, ServiceAnswers(outcome)))
  {
  }

  lemma {:induction false} WeightedReceive(s: System)
    requires Weighted(s) && Counted(s)
    ensures Weighted(OnReceive(s)) && Weighted(OnDrain(s))
  {
  }

  lemma {:induction false} WeightedCall(s: System, h: nat, weight: nat)
    requires Weighted(s) && weight > 0
    ensures Weighted(OnCall(s, h, weight))
  {
  }

  /** Steps that change neither the channel nor the pending batch. */
  lemma {:induction false} WeightedKept(s: System, t: System)
    requires Weighted(s) && t.queue == s.queue && (t.pc.Ready? ==> t.pc == s.pc)
    requires t.pc.Head? ==> s.pc.Head?
    requires t.stored == s.stored && t.timer == s.timer && t.pending == s.pending
    ensures Weighted(t)
  {
  }

  lemma {:induction false} WeightedTick(s: System, outcome: Option<Error>)
    requires Weighted(s)
    ensures Weighted(OnBatchFinished(s, outcome)) && Weighted(OnTimer(s)) && Weighted(OnDrop(s))
  {
    WeightedKept(s, OnBatchFinished(s, outcome));
    WeightedKept(s, OnTimer(s));
    WeightedKept(s, OnDrop(s));
  }

  lemma {:induction false} WeightedPermit(s: System, h: nat)
    requires Weighted(s)
    ensures Weighted(OnPoll(s)) && Weighted(OnAcquire(s, h)) && Weighted(OnRelease(s, h))
  {
    WeightedKept(s, OnPoll(s));
    WeightedKept(s, OnAcquire(s, h));
    WeightedKept(s, OnRelease(s, h));
  }

  lemma {:induction false} WeightedStep(s: System, a: Action)
    requires Weighted(s) && Counted(s) && Positive(a)
    ensures Weighted(Next(s, a))
  {
    match a
    case FailStep => if s.pc.Failing? { WeightedFail(s); }
    case ServiceAnswers(outcome) => WeightedService(s, outcome);
    case Receive => WeightedReceive(s);
    case DrainStep => WeightedReceive(s);
    case Call(h, weight) => WeightedCall(s, h, weight);
    case BatchFinished(outcome) => WeightedTick(s, outcome);
    case TimerFires => WeightedTick(s, None);
    case DropWorker => WeightedTick(s, None);
    case PollClosed => WeightedPermit(s, 0);
    case Acquire(h) => WeightedPermit(s, h);
    case Release(h) => WeightedPermit(s, h);
  }

  lemma {:induction false} RunIsCounted(cfg: Config, actions: seq<Action>)
    requires cfg.maxWeight > 0
    ensures Counted(Run(Start(cfg), actions))
  {
    StartIsSafe(cfg);
    RunIsSafe(Start(cfg), actions);
  }

  lemma {:induction false} TimerIffPending(cfg: Config, actions: seq<Action>)
    requires cfg.maxWeight > 0 && forall i :: 0 <= i < |actions| ==> Positive(actions[i])
    ensures Weighted(Run(Start(cfg), actions))
  {
    if actions == [] {
    } else {
      var n := |actions| - 1;
      TimerIffPending(cfg, actions[..n]);
      RunIsCounted(cfg, actions[..n]);
      WeightedStep(Run(Start(cfg), actions[..n]), actions[n]);
    }
  }
}
