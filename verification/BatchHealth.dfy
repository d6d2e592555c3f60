/**
 A worker whose service never fails.  It accepts every message, in the order in which they were sent, starts a
 batch exactly when one is full or its timer elapses, and the first error that does occur is the one it exposes.
 */
module BatchHealth {
  import opened Common
  import opened BatchProtocol
  import opened BatchFailure
  import opened BatchLoop
  import opened BatchDrain

  /** The waiting messages are the last ones sent, in order. */
  predicate InOrder(queue: seq<Message>, sent: nat) {
    |queue| <= sent && forall i :: 0 <= i < |queue| ==> queue[i].id == sent - |queue| + i
  }

  /** Everything that does not wait any more was accepted. */
  predicate AllAccepted(answers: map<nat, Answer>, n: nat) {
    answers.Keys == Upto(n) && forall id :: id in answers ==> answers[id] == Accepted
  }

  predicate Open(s: System) { s.pc.Head? && s.stored.None? && s.failed.None? && !s.rxClosed && !s.semClosed }

  predicate Healthy(s: System) {
    Counted(s) && Open(s) && InOrder(s.queue, s.sent) && AllAccepted(s.answers, s.sent - |s.queue|)
  }

  /** Nothing fails, and some service handle is left. */
  predicate NoErrors(m: Moment) {
    m.ready.None? && m.flush.None? && !m.sendersGone && (m.finished.Some? ==> m.finished.value.None?)
  }

  predicate Undisturbed(t: Turn) { t.LoopTurn? ==> NoErrors(t.moment) }

  /* ----- one look of a healthy worker ----- */

  /** A finished batch frees its slot, and changes nothing else. */
  lemma {:induction false} FinishedFrees(l: Loop, m: Moment)
    requires Counted(l.s) && Open(l.s) && BatchReady(l, m) && m.finished.value.None?
    ensures Iterate(l, m).s == l.s.(running := l.s.running - 1)
  {
    BatchKept(l.s, None);
  }

  /** An elapsed timer starts the pending batch. */
  lemma {:induction false} TimerStarts(l: Loop, m: Moment)
    requires Counted(l.s) && Open(l.s) && !BatchReady(l, m) && Elapsed(l, m) && m.flush.None?
    ensures Iterate(l, m) == Loop(l.s.(running := l.s.running + 1, pending := 0, items := [], timer := false), false)
  {
    TimerKept(l.s, None);
  }

  /** Otherwise the first waiting message is accepted; it starts a batch that it fills, or the timer of a new one. */
  lemma {:induction false} FirstIsAccepted(l: Loop, m: Moment)
    requires Counted(l.s) && Open(l.s) && !BatchReady(l, m) && !Elapsed(l, m) && m.ready.None? && m.flush.None?
    requires l.s.queue != [] && l.s.running < l.s.cfg.maxRunning
    ensures var s, t := l.s, Iterate(l, m).s;
            var first, full := s.queue[0], s.pending + s.queue[0].weight >= s.cfg.maxWeight;
            && t.queue == s.queue[1..] && t.answers == s.answers[first.id := Accepted]
            && t.available == s.available + 1 && Open(t) && t.sent == s.sent && t.holders == s.holders
            && t.running == s.running + (if full then 1 else 0)
            && t.pending == (if full then 0 else s.pending + first.weight)
            && t.timer == (!full && (s.timer || s.pending == 0))
  {
    MessageKept(l.s, None, None);
  }

  /** With nothing to receive, or no free slot, the look changes nothing. */
  lemma {:induction false} NothingReady(l: Loop, m: Moment)
    requires Counted(l.s) && Open(l.s) && !BatchReady(l, m) && !Elapsed(l, m) && !m.sendersGone
    requires l.s.queue == [] || l.s.running >= l.s.cfg.maxRunning
    ensures Iterate(l, m).s == l.s
  {
  }

  /* ----- every undisturbed run ----- */

  lemma {:induction false} RestInOrder(queue: seq<Message>, sent: nat)
    requires InOrder(queue, sent) && queue != []
    ensures InOrder(queue[1..], sent) && queue[0].id == sent - |queue|
  {
  }

  lemma {:induction false} OneMoreAccepted(answers: map<nat, Answer>, n: nat)
    requires AllAccepted(answers, n)
    ensures AllAccepted(answers[n := Accepted], n + 1)
  {
    assert answers[n := Accepted].Keys == answers.Keys + {n};
  }

  lemma {:induction false} AcceptNext(s: System, t: System)
    requires Healthy(s) && s.queue != [] && Counted(t) && Open(t)
    requires t.queue == s.queue[1..] && t.sent == s.sent && t.answers == s.answers[s.queue[0].id := Accepted]
    ensures Healthy(t)
  {
    RestInOrder(s.queue, s.sent);
    OneMoreAccepted(s.answers, s.sent - |s.queue|);
  }

  lemma {:induction false} LookKeepsHealth(l: Loop, m: Moment)
    requires Healthy(l.s) && Sound(l.s) && NoErrors(m)
    ensures Healthy(Iterate(l, m).s)
  {
    TurnIsSound(l, LoopTurn(m));
    var t := Iterate(l, m).s;
    assert Take(l, LoopTurn(m)).s == t;
    if BatchReady(l, m) {
      FinishedFrees(l, m);
    } else if Elapsed(l, m) {
      TimerStarts(l, m);
    } else if l.s.queue != [] && l.s.running < l.s.cfg.maxRunning {
      FirstIsAccepted(l, m);
      AcceptNext(l.s, t);
    } else {
      NothingReady(l, m);
    }
  }

  lemma {:induction false} SameTraffic(s: System, t: System)
    requires Healthy(s) && Counted(t) && Open(t) && t.queue == s.queue && t.sent == s.sent && t.answers == s.answers
    ensures Healthy(t)
  {
  }

  lemma {:induction false} OneMoreSent(s: System, t: System, weight: nat)
    requires Healthy(s) && Counted(t) && Open(t) && t.sent == s.sent + 1 && t.answers == s.answers
    requires t.queue == s.queue + [Message(s.sent, weight)]
    ensures Healthy(t)
  {
    assert t.sent - |t.queue| == s.sent - |s.queue|;
  }

  /** What a client step does to the traffic while nothing is closed. */
  lemma {:induction false} ClientTraffic(s: System, a: Action)
    requires Open(s) && ByClient(a)
    ensures var t := Next(s, a);
            && Open(t) && t.answers == s.answers
            && (if a.Call? && a.handle in s.holders
                then t.sent == s.sent + 1 && t.queue == s.queue + [Message(s.sent, a.weight)]
                else t.sent == s.sent && t.queue == s.queue)
  {
  }

  lemma {:induction false} ClientKeepsHealth(s: System, a: Action)
    requires Healthy(s) && ByClient(a) && Counted(Next(s, a))
    ensures Healthy(Next(s, a))
  {
    ClientTraffic(s, a);
    if a.Call? && a.handle in s.holders {
      OneMoreSent(s, Next(s, a), a.weight);
    } else {
      SameTraffic(s, Next(s, a));
    }
  }

  /**
   Over every run in which nothing fails, with any clients in between: the worker stays open, and every message
   sent was accepted, in order, or still waits in order.
   */
  lemma {:induction false} UndisturbedRun(cfg: Config, ts: seq<Turn>)
    requires cfg.maxWeight > 0 && forall i :: 0 <= i < |ts| ==> Undisturbed(ts[i])
    ensures Healthy(Turns(Loop(Start(cfg), false), ts).s)
  {
    var l := Loop(Start(cfg), false);
    StartIsSound(cfg);
    if ts == [] {
    } else {
      var n := |ts| - 1;
      UndisturbedRun(cfg, ts[..n]);
      var before := Turns(l, ts[..n]);
      TurnsAreSound(l, ts[..n]);
      TurnsAreSound(l, ts);
      if ts[n].LoopTurn? {
        LookKeepsHealth(before, ts[n].moment);
      } else if ByClient(ts[n].action) {
        ClientKeepsHealth(before.s, ts[n].action);
      }
    }
  }

  /* ----- the first error ----- */

  /** The error that a look of an open worker runs into, if any. */
  function ErrorOf(l: Loop, m: Moment): Option<Error> {
    if BatchReady(l, m) then m.finished.value
    else if Elapsed(l, m) then m.flush
    else if l.s.queue == [] || l.s.running >= l.s.cfg.maxRunning then None
    else if m.ready.Some? then m.ready
    else if l.s.pending + l.s.queue[0].weight >= l.s.cfg.maxWeight then m.flush
    else None
  }

  /** Whatever the look runs into is exposed, closes the channel and the semaphore, and stops the timer. */
  lemma {:induction false} ErrorIsExposed(l: Loop, m: Moment)
    requires Counted(l.s) && Open(l.s) && ErrorOf(l, m).Some?
    ensures var t, e := Iterate(l, m).s, ErrorOf(l, m);
            && t.pc.Head? && t.stored == e && t.failed == e && t.rxClosed && t.semClosed
            && (BatchReady(l, m) || Elapsed(l, m) ==> t.queue == l.s.queue && t.answers == l.s.answers && !t.timer)
            && (!BatchReady(l, m) && !Elapsed(l, m) ==>
                && t.queue == l.s.queue[1..]
                && t.answers == l.s.answers[l.s.queue[0].id := if m.ready.Some? then Refused(e.value) else Accepted])
  {
    if BatchReady(l, m) {
      BatchKept(l.s, m.finished.value);
    } else if Elapsed(l, m) {
      TimerKept(l.s, m.flush);
    } else {
      MessageKept(l.s, m.ready, m.flush);
    }
  }

  /** A worker that runs into nothing stays open, unless its channel ends. */
  lemma {:induction false} NoErrorStaysOpen(l: Loop, m: Moment)
    requires Counted(l.s) && Open(l.s) && ErrorOf(l, m).None? && !m.sendersGone
    ensures Open(Iterate(l, m).s)
  {
    if BatchReady(l, m) {
      FinishedFrees(l, m);
    } else if Elapsed(l, m) {
      TimerStarts(l, m);
    } else if l.s.queue == [] || l.s.running >= l.s.cfg.maxRunning {
      NothingReady(l, m);
    } else {
      MessageKept(l.s, m.ready, m.flush);
    }
  }

  /** Once every handle is gone and nothing waits, the worker ends; it then reports that it is closed. */
  lemma {:induction false} EndsWithSenders(l: Loop, m: Moment)
    requires Counted(l.s) && Open(l.s) && !BatchReady(l, m) && !Elapsed(l, m) && m.sendersGone
    requires l.s.queue == [] && l.s.running < l.s.cfg.maxRunning
    ensures var t := Iterate(l, m).s;
            t.pc.Done? && t.stored == Some(Closed) && t.rxClosed && t.semClosed && t.answers == l.s.answers
  {
    EndRegisters(l.s);
  }
}
