/** The batch worker and its clients as the program runs them, over fields updated in place. */
module BatchWorker {
  import opened Common
  import opened BatchProtocol
  import opened BatchLoop

  /** What a readiness poll tells its caller. */
  datatype Readiness = IsReady | NotYet | Gone(error: Option<Error>)

  /** The service handles and the worker, around one channel, one semaphore and one error handle. */
  class Pair {
    const cfg: Config
    var queue: seq<Message>
    var rxClosed: bool
    var available: nat
    var semClosed: bool
    var errorHandle: Option<Error>
    var pendingItemsWeight: nat
    var timer: bool
    var running: nat
    var failed: Option<Error>
    var answers: map<nat, Answer>
    var holders: set<nat>       // the handles that hold a permit
    var sent: nat
    var ended: bool             // the worker task is over
    var expired: bool           // the armed timer has elapsed
    ghost var items: seq<nat>
    ghost var lost: set<nat>
    ghost var readings: seq<Option<Error>>

    /** The whole system with this worker at some place of its program. */
    ghost function ViewAt(pc: Pc): System
      reads this
    {
      System(cfg, queue, rxClosed, available, semClosed, errorHandle, pc, pendingItemsWeight, timer, running, failed,
             holders, items, sent, answers, lost, readings)
    }

    /** The system between two iterations, or after the last one. */
    ghost function View(): System
      reads this
    {
      ViewAt(if ended then Done else Head)
    }

    ghost function LoopNow(): Loop
      reads this
    {
      Loop(View(), expired)
    }

    constructor (cfg: Config)
      ensures this.cfg == cfg && LoopNow() == Loop(Start(cfg), false)
    {
      this.cfg := cfg;
      queue, rxClosed, available, semClosed, errorHandle := [], false, cfg.permits, false, None;
      pendingItemsWeight, timer, running, failed, answers := 0, false, 0, None, map[];
      items, holders, sent, lost, readings := [], {}, 0, {}, [];
      ended, expired := false, false;
    }

    /* ----- clients ----- */

    /** The first half of a readiness poll: a closed channel reports the stored error. */
    method PollChannel() returns (r: Readiness)
      requires Ordered(View())
      modifies `readings
      ensures View() == OnPoll(old(View()))
      ensures r == if rxClosed then Gone(errorHandle) else NotYet
      ensures r.Gone? ==> r.error.Some?
    {
      if !rxClosed { return NotYet; }
      readings := readings + [errorHandle];
      return Gone(errorHandle);
    }

    /** Gives a permit back. */
    method ReleasePermit(h: nat)
      modifies `holders, `available
      ensures View() == OnRelease(old(View()), h) && h !in holders
    {
      if h in holders { holders, available := holders - {h}, available + 1; }
    }

    /** The second half, which the worker may overtake: drops an earlier permit and asks for a new one. */
    method PollPermit(h: nat) returns (r: Readiness)
      requires Ordered(View())
      modifies `holders, `available, `readings
      ensures View() == OnAcquire(old(View()), h)
      ensures r == if semClosed then Gone(errorHandle) else if h in holders then IsReady else NotYet
      ensures r.Gone? ==> r.error.Some?
    {
      ReleasePermit(h);
      if semClosed {
        readings := readings + [errorHandle];
        return Gone(errorHandle);
      }
      if available == 0 { return NotYet; }
      holders, available := holders + {h}, available - 1;
      return IsReady;
    }

    /** Sends one request with the permit of a ready handle; fails with the stored error on a closed channel. */
    method CallService(h: nat, weight: nat) returns (id: Result<nat>)
      requires Ordered(View()) && h in holders
      modifies `holders, `available, `readings, `queue, `sent
      ensures View() == OnCall(old(View()), h, weight)
      ensures id == if rxClosed then Err else Ok(old(sent))
      ensures id.Err? ==> errorHandle.Some?
    {
      holders := holders - {h};
      if rxClosed {
        available := available + 1;
        readings := readings + [errorHandle];
        return Err;
      }
      queue := queue + [Message(sent, weight)];
      sent := sent + 1;
      return Ok(sent - 1);
    }

    /* ----- the worker ----- */

    /** Exposes the error, closes the channel and the semaphore, and stops scheduling; later failures are ignored. */
    method RegisterFailure(e: Error)
      modifies `errorHandle, `rxClosed, `semClosed, `timer, `failed
      ensures View() == Registered(old(View()), e)
    {
      if errorHandle.Some? { return; }
      errorHandle := Some(e);
      rxClosed := true;
      semClosed := true;
      timer := false;
      failed := Some(e);
    }

    /** Hands one message to the service, or answers it with the failure. */
    method ProcessReq(m: Message, ready: Option<Error>)
      requires Ordered(View())
      modifies `errorHandle, `rxClosed, `semClosed, `timer, `failed, `pendingItemsWeight, `items, `answers
      ensures Ordered(View())
      ensures View() == Processed(old(View()), m, ready)
    {
      if failed.Some? {
        answers := answers[m.id := Refused(failed.value)];
        return;
      }
      if ready.None? {
        pendingItemsWeight := pendingItemsWeight + m.weight;
        items := items + [m.weight];
        answers := answers[m.id := Accepted];
      } else {
        RegisterFailure(ready.value);
        answers := answers[m.id := Refused(failed.value)];
      }
    }

    /** Starts the pending batch, unless the worker has failed. */
    method FlushService(flush: Option<Error>)
      requires Ordered(View())
      modifies `errorHandle, `rxClosed, `semClosed, `timer, `failed, `running, `pendingItemsWeight, `items
      ensures Ordered(View())
      ensures View() == Flushed(old(View()), flush)
    {
      if failed.Some? { return; }
      if flush.None? {
        running := running + 1;
        pendingItemsWeight, items := 0, [];
        timer := false;
      } else {
        RegisterFailure(flush.value);
      }
    }

    /** A running batch finished. */
    method OnBatch(outcome: Option<Error>)
      requires Counted(View()) && !ended && running > 0
      modifies `errorHandle, `rxClosed, `semClosed, `timer, `failed, `running
      ensures Counted(View()) && View() == BatchBranch(old(View()), outcome)
    {
      ghost var s := View();
      BatchKept(s, outcome);
      running := running - 1;
      if outcome.Some? { RegisterFailure(outcome.value); }
    }

    /** The batch timer elapsed. */
    method OnTimer(flush: Option<Error>)
      requires Counted(View()) && !ended && timer
      modifies `errorHandle, `rxClosed, `semClosed, `timer, `failed, `running, `pendingItemsWeight, `items
      ensures Counted(View()) && View() == TimerBranch(old(View()), flush)
    {
      ghost var s := View();
      TimerKept(s, flush);
      FlushService(flush);
    }

    /** A message arrived: process it, flush a full batch, or start the timer of a new one. */
    method OnMessage(ready: Option<Error>, flush: Option<Error>)
      requires Counted(View()) && !ended && queue != [] && running < cfg.maxRunning
      modifies `errorHandle, `rxClosed, `semClosed, `timer, `failed, `running, `pendingItemsWeight, `items, `answers,
               `queue, `available
      ensures Counted(View()) && View() == MessageBranch(old(View()), ready, flush)
    {
      ghost var s := View();
      MessageKept(s, ready, flush);
      var m := queue[0];
      queue := queue[1..];
      var isNewBatch := pendingItemsWeight == 0;
      ProcessReq(m, ready);
      FinishMessage(isNewBatch, flush);
    }

    /** The end of the receive branch; the message's permit is released last. */
    method FinishMessage(isNewBatch: bool, flush: Option<Error>)
      requires Ordered(View())
      modifies `errorHandle, `rxClosed, `semClosed, `timer, `failed, `running, `pendingItemsWeight, `items, `available
      ensures View() == Finished(old(View()), isNewBatch, flush)
    {
      if pendingItemsWeight >= cfg.maxWeight {
        FlushService(flush);
      } else if isNewBatch {
        timer := true;
      }
      available := available + 1;
    }

    /** Answers the next message in the channel with the failure, and releases its permit. */
    method AnswerNext()
      requires failed.Some? && queue != []
      modifies `queue, `answers, `available
      ensures ViewAt(Draining) == Next(old(ViewAt(Draining)), DrainStep)
    {
      var m := queue[0];
      queue := queue[1..];
      answers := answers[m.id := Refused(failed.value)];
      available := available + 1;
    }

    /** Answers whatever is left in the channel. */
    method DrainChannel()
      requires failed.Some?
      modifies `queue, `answers, `available
      ensures ViewAt(Done) == Drained(old(ViewAt(Draining)))
    {
      ghost var s := ViewAt(Draining);
      while queue != []
        invariant Drained(ViewAt(Draining)) == Drained(s)
        decreases |queue|
      {
        ghost var t := ViewAt(Draining);
        assert Drained(t) == Drained(Next(t, DrainStep)) && |Next(t, DrainStep).queue| < |t.queue|;
        AnswerNext();
      }
    }

    /** Ends the worker: registers the closing, and answers whatever is left in the channel. */
    method DropWorker()
      requires Counted(View()) && !ended
      modifies `ended, `errorHandle, `rxClosed, `semClosed, `timer, `failed, `queue, `answers, `available
      ensures ended && Counted(View()) && View() == EndBranch(old(View()))
    {
      ghost var s := View();
      EndCounted(s);
      EndRegisters(s);
      RegisterFailure(Closed);
      DrainChannel();
      ended := true;
    }

    /** The channel branch: a message, or the end of a closed and empty channel. */
    method OnChannel(m: Moment)
      requires Counted(View()) && !ended
      modifies this
      ensures expired == old(expired) && Counted(View())
      ensures View() == ChannelBranch(old(View()), m)
    {
      if running >= cfg.maxRunning { return; }
      if queue != [] {
        OnMessage(m.ready, m.flush);
      } else if rxClosed || m.sendersGone {
        DropWorker();
      }
    }

    /** One pass of the select loop: a finished batch, then an elapsed timer, then the channel. */
    method Select(m: Moment)
      requires Counted(View()) && !ended
      modifies this
      ensures Counted(View()) && LoopNow() == Iterate(old(LoopNow()), m)
    {
      var elapsed := timer && (expired || m.tick);
      if m.finished.Some? && running > 0 {
        expired := elapsed;
        OnBatch(m.finished.value);
      } else if elapsed {
        expired := failed.Some?;
        OnTimer(m.flush);
      } else {
        expired := false;
        OnChannel(m);
      }
    }

    /** The loop over what becomes ready, until it ends. */
    method SelectLoop(moments: seq<Moment>)
      requires Counted(View())
      modifies this
      ensures Counted(View()) && LoopNow() == Turns(old(LoopNow()), LoopTurns(moments))
    {
      for i := 0 to |moments|
        invariant Counted(View()) && LoopNow() == Turns(old(LoopNow()), LoopTurns(moments[..i]))
      {
        assert LoopTurns(moments[..i + 1]) == LoopTurns(moments[..i]) + [LoopTurn(moments[i])];
        assert LoopTurns(moments[..i + 1])[..i] == LoopTurns(moments[..i]);
        if !ended { Select(moments[i]); }
      }
      assert moments[..|moments|] == moments;
    }
  }

  /** Iterations with no client in between. */
  function LoopTurns(moments: seq<Moment>): seq<Turn> {
    seq(|moments|, i requires 0 <= i < |moments| => LoopTurn(moments[i]))
  }
}
