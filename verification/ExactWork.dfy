/** Exact target work: three saturating counters whose values are exact while nothing has overflowed. */
module ExactWork {
  import opened Common
  import opened Words256
  import opened Targets

  datatype Observation = Current | Stale | Unknown

  function IndexOf(o: Observation): nat { match o case Current => 0 case Stale => 1 case Unknown => 2 }

  /** A share that was recorded: its bucket, its target, the work counted for it, and its event number. */
  datatype Share = Share(bucket: nat, target: nat, work: nat, event: nat)

  /** The work of a target as the program computes it with 256-bit numbers. */
  function ComputedWork(target: nat): nat
    requires 0 < target <= MAX256
  {
    if target == MAX256 then 1 else (MAX256 - target) / (target + 1) + 1
  }

  /** The work of a target, floor(2^256 / (target + 1)) as in section 7.7.5 of the Zcash Protocol Specification. */
  function Work(target: nat): nat { (MAX256 + 1) / (target + 1) }

  lemma {:induction false} QuotientBelow(x: nat, n: nat)
    requires n > 1 && x > 0
    ensures x / n < x
  {
    var q, r := x / n, x % n;
    assert x == q * n + r;
    TimesAtLeast(n - 1, q);
    assert q * n == (n - 1) * q + q;
  }

  /** The program computes exactly the specified work, and no intermediate value exceeds 256 bits. */
  lemma {:induction false} WorkIsExact(target: nat)
    requires 0 < target <= MAX256
    ensures ComputedWork(target) == Work(target)
    ensures 1 <= ComputedWork(target) <= MAX256
    ensures target < MAX256 ==> target + 1 <= MAX256 && (MAX256 - target) / (target + 1) < MAX256
  {
    var n := target + 1;
    if target == MAX256 {
      DivUnique(MAX256 + 1, 1, 0, n);
    } else {
      assert MAX256 - target + n == MAX256 + 1;
      DivOneMore(MAX256 - target, n);
      QuotientBelow(MAX256 - target, n);
    }
  }

  /* ----- exact totals of a history ----- */

  /** Every share is counted with the exact work of its target. */
  predicate ExactShares(history: seq<Share>) {
    history != [] ==>
      var last := history[|history| - 1];
      ExactShares(history[..|history| - 1]) && 0 < last.target <= MAX256 && last.work == Work(last.target)
  }

  lemma {:induction false} ExactOneMore(history: seq<Share>, s: Share)
    requires ExactShares(history) && 0 < s.target <= MAX256 && s.work == Work(s.target)
    ensures ExactShares(history + [s])
  {
    assert (history + [s])[..|history|] == history;
  }

  lemma {:induction false} ExactEach(history: seq<Share>, i: nat)
    requires ExactShares(history) && i < |history|
    ensures history[i].work == Work(history[i].target)
  {
    if i < |history| - 1 { ExactEach(history[..|history| - 1], i); }
  }

  /** The work of the shares of one bucket. */
  function TotalWork(history: seq<Share>, bucket: nat): nat {
    if history == [] then 0
    else
      var last := history[|history| - 1];
      TotalWork(history[..|history| - 1], bucket) + if last.bucket == bucket then last.work else 0
  }

  function TotalShares(history: seq<Share>, bucket: nat): nat {
    if history == [] then 0
    else
      TotalShares(history[..|history| - 1], bucket) + if history[|history| - 1].bucket == bucket then 1 else 0
  }

  /** The first event number that is not zero. */
  function FirstEvent(history: seq<Share>): nat {
    if history == [] then 0
    else
      var before := FirstEvent(history[..|history| - 1]);
      if before != 0 then before else history[|history| - 1].event
  }

  function LastEvent(history: seq<Share>): nat { if history == [] then 0 else history[|history| - 1].event }

  predicate Overflows(history: seq<Share>, bucket: nat) {
    TotalWork(history, bucket) > MAX256 || TotalShares(history, bucket) > U64_MAX
  }

  lemma {:induction false} TotalsStep(history: seq<Share>, s: Share, bucket: nat)
    ensures TotalWork(history + [s], bucket) == TotalWork(history, bucket) + if s.bucket == bucket then s.work else 0
    ensures TotalShares(history + [s], bucket) == TotalShares(history, bucket) + if s.bucket == bucket then 1 else 0
    ensures FirstEvent(history + [s]) == if FirstEvent(history) != 0 then FirstEvent(history) else s.event
  {
    assert (history + [s])[..|history|] == history;
  }

  /** One bucket: its counters are the exact totals, cut off at their largest values. */
  predicate Bucket(history: seq<Share>, bucket: nat, shares: nat, workLe: seq<byte>) {
    && |workLe| == 32
    && LittleValue(workLe) == Min(TotalWork(history, bucket), MAX256)
    && shares == Min(TotalShares(history, bucket), U64_MAX)
  }

  lemma {:induction false} EncodeWork(n: nat)
    requires n <= MAX256
    ensures LittleValue(LittleBytes(n, WIDTH)) == n
  {
    PowWidth();
    LittleBytesValue(n, WIDTH);
  }

  /** A share of this bucket is added to saturating counters, and an overflow shows. */
  lemma {:induction false} BucketAdds(history: seq<Share>, s: Share, shares: nat, workLe: seq<byte>)
    requires Bucket(history, s.bucket, shares, workLe) && s.work > 0
    ensures var work := LittleValue(workLe) + s.work;
            && Bucket(history + [s], s.bucket, Min(shares + 1, U64_MAX), LittleBytes(Min(work, MAX256), WIDTH))
            && (Overflows(history + [s], s.bucket) <==>
                Overflows(history, s.bucket) || work > MAX256 || shares + 1 > U64_MAX)
  {
    TotalsStep(history, s, s.bucket);
    EncodeWork(Min(LittleValue(workLe) + s.work, MAX256));
  }

  lemma {:induction false} BucketSkips(history: seq<Share>, s: Share, b: nat, shares: nat, workLe: seq<byte>)
    requires Bucket(history, b, shares, workLe) && b != s.bucket
    ensures Bucket(history + [s], b, shares, workLe)
    ensures Overflows(history + [s], b) <==> Overflows(history, b)
  {
    TotalsStep(history, s, b);
  }

  ghost predicate Buckets(history: seq<Share>, shares: seq<nat>, works: seq<seq<byte>>) {
    |shares| == |works| == 3 && forall b :: 0 <= b < 3 ==> Bucket(history, b, shares[b], works[b])
  }

  /** What one share does to all three buckets. */
  lemma {:induction false} BucketsStep(history: seq<Share>, s: Share, shares: seq<nat>, works: seq<seq<byte>>)
    requires Buckets(history, shares, works) && s.bucket < 3 && s.work > 0
    ensures var work := LittleValue(works[s.bucket]) + s.work;
            && Buckets(history + [s], shares[s.bucket := Min(shares[s.bucket] + 1, U64_MAX)],
                       works[s.bucket := LittleBytes(Min(work, MAX256), WIDTH)])
            && (AnyOverflow(history + [s]) <==> AnyOverflow(history) || work > MAX256 || shares[s.bucket] + 1 > U64_MAX)
  {
    BucketAdds(history, s, shares[s.bucket], works[s.bucket]);
    forall b | 0 <= b < 3 && b != s.bucket
      ensures Bucket(history + [s], b, shares[b], works[b]) && (Overflows(history + [s], b) <==> Overflows(history, b))
    {
      BucketSkips(history, s, b, shares[b], works[b]);
    }
  }

  predicate AnyOverflow(history: seq<Share>) { exists b :: 0 <= b < 3 && Overflows(history, b) }

  class WorkStats {
    var shares: seq<nat>
    var targetWorkLe: seq<seq<byte>>
    var firstEventSeq: nat
    var lastEventSeq: nat
    var overflowed: bool
    ghost var history: seq<Share>
    ghost var zeroTarget: bool

    /** Every share counts with its exact work, every counter is the total of its bucket or its largest value,
        and `overflowed` tells which. */
    ghost predicate Valid()
      reads this
    {
      ExactShares(history) && Tallied()
    }

    ghost predicate Tallied()
      reads this
    {
      && Buckets(history, shares, targetWorkLe)
      && (overflowed <==> zeroTarget || AnyOverflow(history))
      && firstEventSeq == FirstEvent(history) && lastEventSeq == LastEvent(history)
    }

    constructor ()
      ensures Valid() && history == [] && !zeroTarget
    {
      var zero := LittleBytes(0, WIDTH);
      EncodeWork(0);
      shares, targetWorkLe := [0, 0, 0], [zero, zero, zero];
      firstEventSeq, lastEventSeq, overflowed := 0, 0, false;
      history, zeroTarget := [], false;
    }

    /** Adds work to one bucket; both counters saturate and report it. */
    method AddToBucket(index: nat, work: nat)
      requires index < 3 && |shares| == |targetWorkLe| == 3
      modifies `shares, `targetWorkLe, `overflowed
      ensures var next := LittleValue(old(targetWorkLe[index])) + work;
              && targetWorkLe == old(targetWorkLe)[index := LittleBytes(Min(next, MAX256), WIDTH)]
              && shares == old(shares)[index := Min(old(shares)[index] + 1, U64_MAX)]
              && (overflowed <==> old(overflowed) || next > MAX256 || old(shares)[index] + 1 > U64_MAX)
    {
      var next := LittleValue(targetWorkLe[index]) + work;
      if next > MAX256 {
        overflowed, next := true, MAX256;
      }
      targetWorkLe := targetWorkLe[index := LittleBytes(next, WIDTH)];
      var count := shares[index] + 1;
      if count > U64_MAX {
        overflowed, count := true, U64_MAX;
      }
      shares := shares[index := count];
    }

    method Count(index: nat, work: nat, event: nat, ghost s: Share)
      requires Tallied() && index < 3 && work > 0 && s.bucket == index && s.work == work && s.event == event
      modifies `shares, `targetWorkLe, `overflowed, `firstEventSeq, `lastEventSeq, `history
      ensures Tallied() && history == old(history) + [s]
    {
      TotalsStep(history, s, index);
      BucketsStep(history, s, shares, targetWorkLe);
      AddToBucket(index, work);
      if firstEventSeq == 0 { firstEventSeq := event; }
      lastEventSeq := event;
      history := history + [s];
    }

    /** Adds one share to its bucket; a zero target is refused and reported as an overflow. */
    method Record(o: Observation, targetLe: Bytes32, event: nat)
      requires Valid()
      modifies this
      ensures Valid()
      ensures var target := LittleValue(targetLe);
              && history == (if target == 0 then old(history)
                             else old(history) + [Share(if o.Current? then 0 else if o.Stale? then 1 else 2, target,
                                                        Work(target), event)])
              && zeroTarget == (old(zeroTarget) || target == 0)
    {
      if LittleValue(targetLe) == 0 {
        overflowed, zeroTarget := true, true;
        return;
      }
      var work := TargetWork(targetLe);
      ghost var s := Share(IndexOf(o), LittleValue(targetLe), work, event);
      ExactOneMore(history, s);
      Count(IndexOf(o), work, event, s);
    }
  }

  /** The work of a nonzero target, computed without leaving 256 bits. */
  method TargetWork(targetLe: Bytes32) returns (work: nat)
    requires LittleValue(targetLe) > 0
    ensures work == Work(LittleValue(targetLe)) && 1 <= work <= MAX256 && LittleValue(targetLe) <= MAX256
  {
    LittleBound(targetLe);
    PowWidth();
    var target := LittleValue(targetLe);
    WorkIsExact(target);
    if target == MAX256 { return 1; }
    return (MAX256 - target) / (target + 1) + 1;
  }

  /** While `overflowed` is false every bucket holds the exact sum of its work and the exact number of its shares. */
  lemma {:induction false} ExactWhileNotOverflowed(stats: WorkStats, b: nat)
    requires stats.Valid() && !stats.overflowed && b < 3
    ensures LittleValue(stats.targetWorkLe[b]) == TotalWork(stats.history, b)
    ensures stats.shares[b] == TotalShares(stats.history, b)
    ensures forall i :: 0 <= i < |stats.history| ==> stats.history[i].work == Work(stats.history[i].target)
  {
    assert Bucket(stats.history, b, stats.shares[b], stats.targetWorkLe[b]);
    assert !Overflows(stats.history, b);
    forall i | 0 <= i < |stats.history| ensures stats.history[i].work == Work(stats.history[i].target) {
      ExactEach(stats.history, i);
    }
  }
}
