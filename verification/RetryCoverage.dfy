/**
 Exactly when the rotating retry reaches every entry: across a wrap of its cursor, and with urgent-only
 passes between the maintenance passes.
 */
module RetryCoverage {
  import opened Common
  import opened Words256
  import opened RetryRotation

  /* ----- exactly when a wrap does no harm ----- */

  /** The number that the cursor and offset of step `t` add up to, two steps per pass, with the cursor's wrap. */
  function Place(cursor: nat, t: nat): nat { if cursor + t < USIZE then cursor + t else cursor + t - USIZE }

  predicate Reaches(n: nat, cursor: nat, r: nat)
    requires n > 0
  {
    exists t :: 0 <= t < BATCH * Passes(n) && IsAt(n, cursor, t, r)
  }

  predicate IsAt(n: nat, cursor: nat, t: nat, r: nat)
    requires n > 0
  {
    Place(cursor, t) % n == r
  }

  /** The entries that the cursor meets before its wrap are enough, or the wrap lines up with the list. */
  predicate WrapHarmless(n: nat, cursor: nat)
    requires n > 0
  {
    cursor + n <= USIZE || USIZE % n == 0 || (n % 2 == 1 && USIZE % n == 1)
  }

  /** The remainder of a number `d` below the wrap. */
  lemma {:induction false} BelowWrap(n: nat, d: nat)
    requires 0 < d < n <= USIZE
    ensures (USIZE - d) % n == if d <= USIZE % n then USIZE % n - d else USIZE % n + n - d
  {
    var q, rho := USIZE / n, USIZE % n;
    assert USIZE == q * n + rho;
    if d <= rho {
      ModUnique(USIZE - d, q, rho - d, n);
    } else {
      assert (q - 1) * n == q * n - n;
      ModUnique(USIZE - d, q - 1, rho + n - d, n);
    }
  }

  lemma {:induction false} SmallRemainder(x: nat, n: nat)
    requires x < n
    ensures x % n == x
  {
    ModUnique(x, 0, x, n);
  }

  lemma {:induction false} ReachedBeforeWrap(n: nat, cursor: nat, r: nat)
    requires r < n && cursor + n <= USIZE
    ensures Reaches(n, cursor, r)
  {
    var t, q := SomeOffset(cursor, r, n);
    ModUnique(cursor + t, q, r, n);
    assert IsAt(n, cursor, t, r);
  }

  /** How far below the wrap an entry lies that the steps behind the wrap do not reach. */
  lemma {:induction false} BelowEnough(n: nat, a: nat, rho: nat, r: nat)
    requires 0 < a < n && rho <= n % 2 && r < n && n + n % 2 - a <= r
    ensures rho < rho + n - r <= a && rho + n - (rho + n - r) == r
  {
  }

  lemma {:induction false} ReachedBehindWrap(n: nat, cursor: nat, r: nat)
    requires 0 < n && cursor < USIZE && USIZE - cursor + r < n + n % 2 && r < n
    ensures Reaches(n, cursor, r)
  {
    TwicePasses(n);
    SmallRemainder(r, n);
    assert Place(cursor, USIZE - cursor + r) == r;
    assert IsAt(n, cursor, USIZE - cursor + r, r);
  }

  lemma {:induction false} ReachedAcrossWrap(n: nat, cursor: nat, r: nat)
    requires r < n <= USIZE && cursor < USIZE < cursor + n && (USIZE - cursor) % 2 == 0
    requires USIZE % n == 0 || (n % 2 == 1 && USIZE % n == 1)
    ensures Reaches(n, cursor, r)
  {
    var a, rho := USIZE - cursor, USIZE % n;
    if a + r < n + n % 2 {
      ReachedBehindWrap(n, cursor, r);
    } else {
      BelowEnough(n, a, rho, r);
      TwicePasses(n);
      var d := rho + n - r;
      BelowWrap(n, d);
      assert Place(cursor, a - d) == USIZE - d;
      assert IsAt(n, cursor, a - d, r);
    }
  }

  lemma {:induction false} TwicePasses(n: nat)
    ensures BATCH * Passes(n) == n + n % 2
  {
  }

  /** A place between the steps behind the wrap and those before it. */
  function MissedBy(n: nat, a: nat, rho: nat): nat
    requires 0 < a < n
  {
    if a <= rho then n - 1 else if n + n % 2 - a < rho then rho else n + n % 2 - a
  }

  /** No step before the wrap and none behind it meets the place that is left out. */
  lemma {:induction false} MissedStep(n: nat, a: nat, rho: nat, t: nat, r: nat)
    requires 0 < a < n && a % 2 == 0 && 0 < rho < n && (n % 2 == 1 ==> rho != 1) && t < n + n % 2
    requires r == MissedBy(n, a, rho)
    ensures r < n
    ensures t < a ==> (if a - t <= rho then rho - (a - t) else rho + n - (a - t)) != r
    ensures t >= a ==> t - a != r && t - a < n
  {
  }

  lemma {:induction false} MissedPlace(n: nat, cursor: nat, t: nat, r: nat)
    requires 0 < n <= USIZE && cursor < USIZE && (USIZE - cursor) % 2 == 0 && !WrapHarmless(n, cursor)
    requires t < n + n % 2 && r == MissedBy(n, USIZE - cursor, USIZE % n)
    ensures r < n && !IsAt(n, cursor, t, r)
  {
    var a := USIZE - cursor;
    MissedStep(n, a, USIZE % n, t, r);
    if t < a {
      assert Place(cursor, t) == USIZE - (a - t);
      BelowWrap(n, a - t);
    } else {
      assert Place(cursor, t) == t - a;
      SmallRemainder(t - a, n);
    }
  }

  /** The entry that a harmful wrap leaves out. */
  lemma {:induction false} MissedAcrossWrap(n: nat, cursor: nat) returns (r: nat)
    requires 0 < n <= USIZE && cursor < USIZE && (USIZE - cursor) % 2 == 0 && !WrapHarmless(n, cursor)
    ensures r < n && !Reaches(n, cursor, r)
  {
    TwicePasses(n);
    r := MissedBy(n, USIZE - cursor, USIZE % n);
    MissedPlace(n, cursor, 0, r);
    forall t | 0 <= t < BATCH * Passes(n) ensures !IsAt(n, cursor, t, r) { MissedPlace(n, cursor, t, r); }
  }

  /**
   The exact condition for the rotation across a wrap: ceil(n/2) passes from an even cursor reach every place of a
   list of n entries if and only if the wrap lies behind the first n steps, or n divides 2^64, or n is odd
   and 2^64 leaves remainder one.
   */
  lemma {:induction false} RotationIff(n: nat, cursor: nat)
    requires 0 < n <= USIZE && cursor < USIZE && cursor % 2 == 0
    ensures (forall r :: 0 <= r < n ==> Reaches(n, cursor, r)) <==> WrapHarmless(n, cursor)
  {
    if WrapHarmless(n, cursor) {
      forall r | 0 <= r < n ensures Reaches(n, cursor, r) {
        if cursor + n <= USIZE { ReachedBeforeWrap(n, cursor, r); } else { ReachedAcrossWrap(n, cursor, r); }
      }
    } else {
      var r := MissedAcrossWrap(n, cursor);
    }
  }

  lemma {:induction false} IncreasingDistinct(sorted: seq<Entry>, i: nat, j: nat)
    requires Increasing(sorted) && i < |sorted| && j < |sorted| && sorted[i] == sorted[j]
    ensures i == j
  {
    if i < j { BeforeTotal(sorted[i], sorted[j]); } else if j < i { BeforeTotal(sorted[j], sorted[i]); }
  }

  lemma {:induction false} OffsetPlaces(at: nat, n: nat)
    requires n > 0
    ensures (at % n + 0) % n == at % n && (at % n + 1) % n == (at + 1) % n
  {
    SmallRemainder(at % n, n);
    var q, r := (at + 1) / n, (at + 1) % n;
    assert at + 1 == q * n + r;
    ModAdd(at, 1, q, r, n);
  }

  /** A window of two entries. */
  lemma {:induction false} WindowPair(sorted: seq<Entry>, at: nat, p0: nat, p1: nat, r: nat)
    requires Increasing(sorted) && r < |sorted| && p0 < |sorted| && p1 < |sorted|
    requires p0 == (at % |sorted| + 0) % |sorted| && p1 == (at % |sorted| + 1) % |sorted|
    ensures sorted[r] in Window(sorted, at, BATCH) <==> r == p0 || r == p1
  {
    assert Window(sorted, at, 1) == Window(sorted, at, 0) + [sorted[p0]];
    assert Window(sorted, at, BATCH) == Window(sorted, at, 1) + [sorted[p1]];
    assert Window(sorted, at, BATCH) == [sorted[p0], sorted[p1]];
    if sorted[r] == sorted[p0] { IncreasingDistinct(sorted, r, p0); }
    if sorted[r] == sorted[p1] { IncreasingDistinct(sorted, r, p1); }
  }

  /** The cursor of pass number `i`. */
  lemma {:induction false} PassPlace(cursor: nat, i: nat)
    requires cursor < USIZE && cursor % 2 == 0 && BATCH * i < USIZE
    ensures (cursor + BATCH * i) % USIZE == Place(cursor, BATCH * i)
    ensures Place(cursor, BATCH * i) + 1 == Place(cursor, BATCH * i + 1)
  {
  }

  /** One pass retries the entries at its two places. */
  lemma {:induction false} PassPlaces(sorted: seq<Entry>, cursor: nat, i: nat, r: nat)
    requires Increasing(sorted) && |sorted| >= 2 && r < |sorted|
    requires cursor < USIZE && cursor % 2 == 0 && BATCH * i < USIZE
    ensures sorted[r] in Window(sorted, (cursor + BATCH * i) % USIZE, BATCH)
            <==> IsAt(|sorted|, cursor, BATCH * i, r) || IsAt(|sorted|, cursor, BATCH * i + 1, r)
  {
    PassPlace(cursor, i);
    var n, at := |sorted|, Place(cursor, BATCH * i);
    OffsetPlaces(at, n);
    WindowPair(sorted, at, at % n, (at + 1) % n, r);
  }

  /** The same for the passes: every entry of a sorted list is retried if and only if the wrap is harmless. */
  lemma {:induction false} PassesCoverIff(sorted: seq<Entry>, cursor: nat)
    requires Increasing(sorted) && 2 <= |sorted| <= USIZE / 2 && cursor < USIZE && cursor % 2 == 0
    ensures (forall r :: 0 <= r < |sorted| ==> Retried(sorted, cursor, r)) <==> WrapHarmless(|sorted|, cursor)
  {
    var n := |sorted|;
    RotationIff(n, cursor);
    forall r | 0 <= r < n ensures Retried(sorted, cursor, r) <==> Reaches(n, cursor, r) {
      RetriedIffReached(sorted, cursor, r);
    }
    if WrapHarmless(n, cursor) {
      forall r | 0 <= r < n ensures Retried(sorted, cursor, r) { assert Reaches(n, cursor, r); }
    }
  }

  predicate Retried(sorted: seq<Entry>, cursor: nat, r: nat)
    requires r < |sorted|
  {
    exists i :: 0 <= i < Passes(|sorted|) && sorted[r] in Window(sorted, (cursor + BATCH * i) % USIZE, BATCH)
  }

  lemma {:induction false} RetriedIffReached(sorted: seq<Entry>, cursor: nat, r: nat)
    requires Increasing(sorted) && 2 <= |sorted| <= USIZE / 2 && cursor < USIZE && cursor % 2 == 0 && r < |sorted|
    ensures Retried(sorted, cursor, r) <==> Reaches(|sorted|, cursor, r)
  {
    var n := |sorted|;
    if Retried(sorted, cursor, r) {
      var i :| 0 <= i < Passes(n) && sorted[r] in Window(sorted, (cursor + BATCH * i) % USIZE, BATCH);
      PassPlaces(sorted, cursor, i, r);
    }
    if Reaches(n, cursor, r) {
      var t :| 0 <= t < BATCH * Passes(n) && IsAt(n, cursor, t, r);
      PassPlaces(sorted, cursor, t / BATCH, r);
      assert t == BATCH * (t / BATCH) || t == BATCH * (t / BATCH) + 1;
    }
  }

  /* ----- urgent-only passes ----- */

  /** One claimed pass: with maintenance, or only for the job that asked. */
  datatype Visit = Visit(pass: Pass, due: bool)

  predicate SelectedBy(v: Visit, cursor: nat, e: Entry) { e in Selected(v.pass.pending, v.pass.job, v.due, cursor) }

  /** A schedule: every visit is due or was asked for, and has the same maintenance entries. */
  predicate Schedule(visits: seq<Visit>, entries: set<Entry>) {
    forall i :: 0 <= i < |visits| ==>
      Lists(Maintained(visits[i].pass), entries) && (visits[i].due || visits[i].pass.job.Some?)
  }

  function DueCount(visits: seq<Visit>): nat {
    if visits == [] then 0 else DueCount(visits[..|visits| - 1]) + if visits[|visits| - 1].due then 1 else 0
  }

  /** Some visit retries the entry; the cursor advances by two per visit, also when maintenance is not due. */
  predicate RetriedIn(visits: seq<Visit>, cursor: nat, e: Entry) {
    exists i :: 0 <= i < |visits| && SelectedBy(visits[i], (cursor + BATCH * i) % USIZE, e)
  }

  lemma {:induction false} SomeDue(visits: seq<Visit>) returns (i: nat)
    requires DueCount(visits) > 0
    ensures i < |visits| && visits[i].due
  {
    var n := |visits| - 1;
    if visits[n].due { i := n; } else { i := SomeDue(visits[..n]); }
  }

  /** A list of at most two entries is retried whole by every maintenance pass. */
  lemma {:induction false} SmallListRetried(entries: set<Entry>, v: Visit, cursor: nat, e: Entry)
    requires Keyed(entries) && |entries| <= BATCH && e in entries && v.due && Lists(Maintained(v.pass), entries)
    ensures SelectedBy(v, cursor, e)
  {
    var listed := Maintained(v.pass);
    var r := SortedPlace(entries, listed, e);
    var t, q := SomeOffset(cursor, r, |Sort(listed)|);
    WindowHas(Sort(listed), cursor, Min(BATCH, |Sort(listed)|), t, q, r);
    SelectsWindow(v.pass, cursor, e);
  }

  /** The visits from one maintenance pass to the next that leave the cursor where it was, modulo n. */
  function Gap(n: nat): nat { if n % 2 == 0 then n / 2 else n }

  /** Maintenance only at every multiple of the gap. */
  function Starving(listed: seq<Entry>, job: string, gap: nat, length: nat): seq<Visit>
    requires gap > 0
  {
    seq(length, i requires 0 <= i < length => Visit(Pass(listed, Some(job)), i % gap == 0))
  }

  lemma {:induction false} NextPlace(p: nat, n: nat)
    requires p < n
    ensures (p + 0) % n == p && (p + 1) % n == if p + 1 < n then p + 1 else 0
  {
    SmallRemainder(p, n);
    if p + 1 < n { SmallRemainder(p + 1, n); } else { ModUnique(p + 1, 1, 0, n); }
  }

  /** The place that a window never shows while the cursor stays at `p` modulo n. */
  function Hidden(p: nat, n: nat): nat { if p + 2 < n then p + 2 else p + 2 - n }

  lemma {:induction false} HiddenFromWindow(sorted: seq<Entry>, at: nat, p: nat)
    requires Increasing(sorted) && |sorted| >= 3 && p < |sorted| && at % |sorted| == p
    ensures sorted[Hidden(p, |sorted|)] !in Window(sorted, at, BATCH)
  {
    var n := |sorted|;
    NextPlace(p, n);
    WindowPair(sorted, at, p, if p + 1 < n then p + 1 else 0, Hidden(p, n));
  }

  /** After a multiple of the gap the cursor is where it was, modulo n. */
  lemma {:induction false} GapAligns(n: nat, cursor: nat, j: nat)
    requires n > 0
    ensures (cursor + BATCH * (Gap(n) * j)) % n == cursor % n
  {
    var q, p, x := cursor / n, cursor % n, if n % 2 == 0 then j else 2 * j;
    assert cursor == q * n + p;
    TimesAssociative(BATCH, Gap(n), j);
    assert BATCH * (Gap(n) * j) == x * n;
    assert (q + x) * n == q * n + x * n;
    ModUnique(cursor + x * n, q + x, p, n);
  }

  lemma {:induction false} NothingUrgent(listed: seq<Entry>, job: string)
    requires forall i :: 0 <= i < |listed| ==> listed[i].jobId != job
    ensures Filter(listed, Some(job), true) == [] && Filter(listed, Some(job), false) == listed
  {
    if listed == [] {
      assert Filter(listed, Some(job), false) == [];
    } else {
      var n := |listed| - 1;
      NothingUrgent(listed[..n], job);
      assert listed[..n] + [listed[n]] == listed;
    }
  }

  /** The place of a list of n entries where visit number `i` starts. */
  function PlaceAt(n: nat, cursor: nat, i: nat): nat
    requires n > 0
  {
    (cursor + BATCH * i) % USIZE % n
  }

  /** In a schedule of some length, every multiple of the gap starts at the same place. */
  ghost predicate AlignedFor(n: nat, cursor: nat, gap: nat, length: nat)
    requires n > 0 && gap > 0
  {
    forall i :: 0 <= i < length && i % gap == 0 ==> PlaceAt(n, cursor, i) == cursor % n
  }

  /** A short gap is aligned as long as the cursor does not wrap. */
  lemma {:induction false} ShortGapAligned(n: nat, cursor: nat, length: nat)
    requires n > 1 && cursor + BATCH * length <= USIZE
    ensures AlignedFor(n, cursor, Gap(n), length)
  {
    forall i | 0 <= i < length && i % Gap(n) == 0 ensures PlaceAt(n, cursor, i) == cursor % n {
      var j := i / Gap(n);
      assert i == Gap(n) * j;
      GapAligns(n, cursor, j);
      NoWrap(cursor + BATCH * i);
    }
  }

  /** The visits after which the cursor has gone around once. */
  const AROUND: nat := USIZE / BATCH

  lemma {:induction false} AroundReturns(cursor: nat, j: nat)
    requires cursor < USIZE
    ensures (cursor + BATCH * (AROUND * j)) % USIZE == cursor
  {
    TimesAssociative(BATCH, AROUND, j);
    ModUnique(cursor + j * USIZE, j, cursor, USIZE);
  }

  /** A whole turn of the cursor is aligned for every list and every length. */
  lemma {:induction false} AroundAligned(n: nat, cursor: nat, length: nat)
    requires n > 0 && cursor < USIZE
    ensures AlignedFor(n, cursor, AROUND, length)
  {
    forall i | 0 <= i < length && i % AROUND == 0 ensures PlaceAt(n, cursor, i) == cursor % n {
      assert i == AROUND * (i / AROUND);
      AroundReturns(cursor, i / AROUND);
    }
  }

  /** A maintenance pass at an aligned cursor does not retry the hidden entry. */
  lemma {:induction false} DueMisses(listed: seq<Entry>, job: string, at: nat, p: nat)
    requires NoRepeats(listed) && Keyed(Elements(listed)) && |listed| >= 3 && p < |listed| && at % |listed| == p
    requires forall k :: 0 <= k < |listed| ==> listed[k].jobId != job
    ensures |Sort(listed)| == |listed|
    ensures Sort(listed)[Hidden(p, |listed|)] !in Selected(listed, Some(job), true, at)
  {
    SortSorts(listed);
    HiddenFromWindow(Sort(listed), at, p);
    NothingUrgent(listed, job);
    assert Selected(listed, Some(job), true, at) == [] + Window(Sort(listed), at, BATCH);
  }

  /** An urgent-only pass for a job that no entry has retries nothing. */
  lemma {:induction false} UrgentOnlyMisses(listed: seq<Entry>, job: string, at: nat)
    requires forall k :: 0 <= k < |listed| ==> listed[k].jobId != job
    ensures Selected(listed, Some(job), false, at) == []
  {
    NothingUrgent(listed, job);
  }

  lemma {:induction false} StarvingMisses(
    listed: seq<Entry>, job: string, cursor: nat, gap: nat, length: nat, i: nat)
    requires NoRepeats(listed) && Keyed(Elements(listed)) && |listed| >= 3 && i < length && gap > 0
    requires forall k :: 0 <= k < |listed| ==> listed[k].jobId != job
    requires AlignedFor(|listed|, cursor, gap, length)
    ensures |Sort(listed)| == |listed|
    ensures !SelectedBy(Starving(listed, job, gap, length)[i], (cursor + BATCH * i) % USIZE,
                        Sort(listed)[Hidden(cursor % |listed|, |listed|)])
  {
    SortLength(listed);
    if i % gap == 0 {
      assert PlaceAt(|listed|, cursor, i) == cursor % |listed|;
      DueMisses(listed, job, (cursor + BATCH * i) % USIZE, cursor % |listed|);
    } else {
      UrgentOnlyMisses(listed, job, (cursor + BATCH * i) % USIZE);
    }
  }

  lemma {:induction false} DueGrows(listed: seq<Entry>, job: string, gap: nat, a: nat, b: nat)
    requires gap > 0 && a <= b
    ensures DueCount(Starving(listed, job, gap, a)) <= DueCount(Starving(listed, job, gap, b))
  {
    if a < b {
      DueGrows(listed, job, gap, a, b - 1);
      assert Starving(listed, job, gap, b)[..b - 1] == Starving(listed, job, gap, b - 1);
    }
  }

  /** The schedule has as many maintenance passes as it is long enough for. */
  lemma {:induction false} DueEveryGap(listed: seq<Entry>, job: string, gap: nat, m: nat)
    requires gap > 0
    ensures DueCount(Starving(listed, job, gap, gap * m + 1)) > m
  {
    var last := gap * m;
    assert Starving(listed, job, gap, last + 1)[..last] == Starving(listed, job, gap, last);
    MultipleOfGap(gap, m);
    if m == 0 {
    } else {
      DueEveryGap(listed, job, gap, m - 1);
      assert gap * m == gap * (m - 1) + gap;
      DueGrows(listed, job, gap, gap * (m - 1) + 1, last);
    }
  }

  lemma {:induction false} MultipleOfGap(gap: nat, m: nat)
    requires gap > 0
    ensures (gap * m) % gap == 0
  {
    ModUnique(gap * m, m, 0, gap);
  }

  lemma {:induction false} ListSet(entries: set<Entry>) returns (listed: seq<Entry>)
    ensures Lists(listed, entries) && |listed| == |entries|
    decreases |entries|
  {
    if entries == {} {
      listed := [];
    } else {
      var e :| e in entries;
      var rest := ListSet(entries - {e});
      listed := rest + [e];
      assert e !in Elements(rest);
      assert Elements(listed) == Elements(rest) + {e};
    }
  }

  /** A job identifier that no entry has. */
  function NewJob(listed: seq<Entry>): (job: string)
    ensures job != "" && forall i :: 0 <= i < |listed| ==> |listed[i].jobId| < |job|
  {
    if listed == [] then "x" else NewJob(listed[..|listed| - 1]) + listed[|listed| - 1].jobId
  }

  lemma {:induction false} StarvingIsSchedule(
    entries: set<Entry>, listed: seq<Entry>, job: string, gap: nat, length: nat)
    requires gap > 0 && Lists(listed, entries) && forall i :: 0 <= i < |listed| ==> |listed[i].jobId| < |job|
    ensures Schedule(Starving(listed, job, gap, length), entries)
  {
    NothingUrgent(listed, job);
  }

  /** Three entries or more are starved through any number of maintenance passes at an aligned gap. */
  lemma {:induction false} LargeListStarves(entries: set<Entry>, cursor: nat, gap: nat, m: nat)
    returns (visits: seq<Visit>, e: Entry)
    requires Keyed(entries) && |entries| >= 3 && gap > 0 && AlignedFor(|entries|, cursor, gap, gap * m + 1)
    ensures Schedule(visits, entries) && |visits| == gap * m + 1 && DueCount(visits) > m
    ensures e in entries && !RetriedIn(visits, cursor, e)
  {
    var listed := ListSet(entries);
    var n, job := |listed|, NewJob(listed);
    var length := gap * m + 1;
    visits := Starving(listed, job, gap, length);
    StarvingIsSchedule(entries, listed, job, gap, length);
    DueEveryGap(listed, job, gap, m);
    SortLength(listed);
    e := Sort(listed)[Hidden(cursor % n, n)];
    SortHas(listed, e);
    assert e in Elements(listed);
    forall i | 0 <= i < |visits| ensures !SelectedBy(visits[i], (cursor + BATCH * i) % USIZE, e) {
      StarvingMisses(listed, job, cursor, gap, length, i);
    }
  }

  /** Few urgent-only passes are enough: n/2 - 1 between two maintenance passes, or n - 1 when n is odd. */
  lemma {:induction false} ShortGapStarves(entries: set<Entry>, cursor: nat, m: nat)
    returns (visits: seq<Visit>, e: Entry)
    requires Keyed(entries) && |entries| >= 3 && cursor + BATCH * (Gap(|entries|) * m + 1) <= USIZE
    ensures Schedule(visits, entries) && |visits| == Gap(|entries|) * m + 1 && DueCount(visits) > m
    ensures e in entries && !RetriedIn(visits, cursor, e)
  {
    ShortGapAligned(|entries|, cursor, Gap(|entries|) * m + 1);
    visits, e := LargeListStarves(entries, cursor, Gap(|entries|), m);
  }

  /**
   The exact condition under urgent-only passes.  Fix any number m and any cursor.  Every schedule with more than
   m maintenance passes, whatever urgent-only passes come between, retries every maintenance entry if and
   only if there are at most two entries.
   */
  lemma {:induction false} StarvationIff(entries: set<Entry>, cursor: nat, m: nat)
    requires Keyed(entries) && cursor < USIZE
    ensures (forall visits, e :: Schedule(visits, entries) && DueCount(visits) > m && e in entries ==>
               RetriedIn(visits, cursor, e)) <==> |entries| <= BATCH
  {
    if |entries| <= BATCH {
      forall visits, e | Schedule(visits, entries) && DueCount(visits) > m && e in entries
        ensures RetriedIn(visits, cursor, e)
      {
        var i := SomeDue(visits);
        SmallListRetried(entries, visits[i], (cursor + BATCH * i) % USIZE, e);
      }
    } else {
      AroundAligned(|entries|, cursor, AROUND * m + 1);
      var visits, e := LargeListStarves(entries, cursor, AROUND, m);
    }
  }

  /* ----- the scheduler carries it out ----- */

  /** The cursor after some claimed passes. */
  function CursorAfter(start: nat, passes: nat): nat {
    if passes == 0 then start else (CursorAfter(start, passes - 1) + BATCH) % USIZE
  }

  lemma {:induction false} CursorAfterIs(start: nat, passes: nat)
    requires start < USIZE
    ensures CursorAfter(start, passes) == (start + BATCH * passes) % USIZE
  {
    if passes == 0 {
      NoWrap(start);
    } else {
      CursorAfterIs(start, passes - 1);
      var x := start + BATCH * (passes - 1);
      var q, r := (x + BATCH) / USIZE, (x + BATCH) % USIZE;
      ModAdd(x, BATCH, q, r, USIZE);
    }
  }

  /** What a visit selects after the visits before it. */
  function SelectedAt(visits: seq<Visit>, start: nat, i: nat): seq<Entry>
    requires i < |visits|
  {
    Selected(visits[i].pass.pending, visits[i].pass.job, visits[i].due, CursorAfter(start, i))
  }

  /** The scheduler carries out any schedule: each visit selects from the cursor that all earlier visits advanced. */
  method CarryOut(retry: OutboxRetry, visits: seq<Visit>) returns (selected: seq<seq<Entry>>)
    requires !retry.inProgress && !retry.requested
    requires forall i :: 0 <= i < |visits| ==> visits[i].due || visits[i].pass.job.Some?
    modifies retry
    ensures |selected| == |visits| && retry.cursor == CursorAfter(old(retry.cursor), |visits|)
    ensures forall i :: 0 <= i < |visits| ==> selected[i] == SelectedAt(visits, old(retry.cursor), i)
  {
    selected := [];
    for i := 0 to |visits|
      invariant !retry.inProgress && !retry.requested && retry.cursor == CursorAfter(old(retry.cursor), i)
      invariant |selected| == i
      invariant forall k :: 0 <= k < i ==> selected[k] == SelectedAt(visits, old(retry.cursor), k)
    {
      var v := visits[i];
      if v.pass.job.Some? { retry.RequestRetry(); }
      var now := if v.due then retry.lastMaintenance + RETRY_INTERVAL else retry.lastMaintenance;
      var job := if v.pass.job.Some? then v.pass.job.value else "";
      var winners := retry.ClaimPass(now, job, v.pass.pending);
      selected := selected + [winners.value];
      retry.FinishPass();
    }
  }

  /** An entry is retried in a schedule exactly when the scheduler selects it in one of its visits. */
  lemma {:induction false} RetriedIffSelected(visits: seq<Visit>, cursor: nat, e: Entry)
    requires cursor < USIZE
    ensures RetriedIn(visits, cursor, e) <==> exists i :: 0 <= i < |visits| && e in SelectedAt(visits, cursor, i)
  {
    forall i | 0 <= i < |visits|
      ensures SelectedBy(visits[i], (cursor + BATCH * i) % USIZE, e) <==> e in SelectedAt(visits, cursor, i)
    {
      CursorAfterIs(cursor, i);
    }
  }
}
