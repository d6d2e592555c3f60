/**
 The rotating retry of pending winners.  Maintenance walks a sorted list two entries at a time, so
 any ceil(n/2) passes over a fixed set visit every entry, in whatever order the hash map lists it.
 */
module RetryRotation {
  import opened Common
  import opened JournalRecord
  import opened Words256

  const BATCH: nat := 2
  const USIZE: nat := U64_MAX + 1

  datatype Entry = Entry(
    chain: Chain, height: u32, shareId: seq<byte>, jobId: string, observed: bool, conflicting: bool)

  predicate UrgentFor(job: Option<string>, e: Entry) {
    job == Some(e.jobId) && !e.observed && !e.conflicting
  }

  /* ----- the sort order ----- */

  /** Bytewise lexicographic order. */
  predicate BytesLess(a: seq<byte>, b: seq<byte>) {
    b != [] && (a == [] || a[0] < b[0] || (a[0] == b[0] && BytesLess(a[1..], b[1..])))
  }

  /** Chain name, then height, then share identifier. */
  predicate Before(a: Entry, b: Entry) {
    if a.chain != b.chain then a.chain.Wcash?
    else if a.height != b.height then a.height < b.height
    else BytesLess(a.shareId, b.shareId)
  }

  predicate SameKey(a: Entry, b: Entry) { a.chain == b.chain && a.shareId == b.shareId }

  lemma {:induction false} BytesTotal(a: seq<byte>, b: seq<byte>)
    ensures a == b || BytesLess(a, b) || BytesLess(b, a)
    ensures !(BytesLess(a, b) && BytesLess(b, a)) && !BytesLess(a, a)
  {
    if a == [] {
    } else {
      BytesTotal(a[1..], a[1..]);
      if b != [] && a[0] == b[0] {
        BytesTotal(a[1..], b[1..]);
        if a[1..] == b[1..] { assert a == [a[0]] + a[1..] && b == [b[0]] + b[1..]; }
      }
    }
  }

  lemma {:induction false} BytesTransitive(a: seq<byte>, b: seq<byte>, c: seq<byte>)
    requires BytesLess(a, b) && BytesLess(b, c)
    ensures BytesLess(a, c)
  {
    if a != [] && a[0] == b[0] && b[0] == c[0] { BytesTransitive(a[1..], b[1..], c[1..]); }
  }

  lemma {:induction false} BeforeTotal(a: Entry, b: Entry)
    ensures SameKey(a, b) || Before(a, b) || Before(b, a)
    ensures !(Before(a, b) && Before(b, a))
  {
    BytesTotal(a.shareId, b.shareId);
  }

  lemma {:induction false} BeforeTransitive(a: Entry, b: Entry, c: Entry)
    requires Before(a, b) && Before(b, c)
    ensures Before(a, c)
  {
    if a.chain == b.chain == c.chain && a.height == b.height == c.height {
      BytesTransitive(a.shareId, b.shareId, c.shareId);
    }
  }

  /** Insertion behind every entry that does not come after it, as a stable sort inserts. */
  function Insert(s: seq<Entry>, e: Entry): seq<Entry> {
    if s == [] then [e]
    else if Before(e, s[|s| - 1]) then Insert(s[..|s| - 1], e) + [s[|s| - 1]]
    else s + [e]
  }

  function Sort(s: seq<Entry>): seq<Entry> {
    if s == [] then [] else Insert(Sort(s[..|s| - 1]), s[|s| - 1])
  }

  predicate Increasing(s: seq<Entry>) { forall i, j :: 0 <= i < j < |s| ==> Before(s[i], s[j]) }

  /** Different entries have different keys, as the entries of a map do. */
  predicate Keyed(entries: set<Entry>) {
    forall a, b :: a in entries && b in entries && SameKey(a, b) ==> a == b
  }

  function Elements(s: seq<Entry>): set<Entry> { set e | e in s }

  predicate NoRepeats(s: seq<Entry>) { forall i, j :: 0 <= i < j < |s| ==> s[i] != s[j] }

  lemma {:induction false} IncreasingAppend(s: seq<Entry>, e: Entry)
    requires Increasing(s) && forall x :: x in Elements(s) ==> Before(x, e)
    ensures Increasing(s + [e])
  {
    forall i, j | 0 <= i < j < |s + [e]| ensures Before((s + [e])[i], (s + [e])[j]) {
      assert s[i] in Elements(s);
    }
  }

  lemma {:induction false} ElementsAppend(s: seq<Entry>, e: Entry)
    ensures Elements(s + [e]) == Elements(s) + {e}
  {
  }

  /** An entry that comes after the last one comes after all. */
  lemma {:induction false} AfterLast(s: seq<Entry>, e: Entry)
    requires Increasing(s) && s != [] && Before(s[|s| - 1], e)
    ensures forall x :: x in Elements(s) ==> Before(x, e)
  {
    forall x | x in Elements(s) ensures Before(x, e) {
      if x != s[|s| - 1] { BeforeTransitive(x, s[|s| - 1], e); }
    }
  }

  lemma {:induction false} InsertSorted(s: seq<Entry>, e: Entry)
    requires Increasing(s) && e !in s && Keyed(Elements(s) + {e})
    ensures Increasing(Insert(s, e)) && Elements(Insert(s, e)) == Elements(s) + {e} && |Insert(s, e)| == |s| + 1
  {
    if s == [] {
      ElementsAppend([], e);
    } else {
      var n := |s| - 1;
      var rest, last := s[..n], s[n];
      assert s == rest + [last] && last in Elements(s);
      ElementsAppend(rest, last);
      BeforeTotal(e, last);
      if Before(e, last) {
        InsertSorted(rest, e);
        IncreasingAppend(Insert(rest, e), last);
        ElementsAppend(Insert(rest, e), last);
      } else {
        AfterLast(s, e);
        IncreasingAppend(s, e);
        ElementsAppend(s, e);
      }
    }
  }

  lemma {:induction false} SortSorts(s: seq<Entry>)
    requires NoRepeats(s) && Keyed(Elements(s))
    ensures Increasing(Sort(s)) && Elements(Sort(s)) == Elements(s) && |Sort(s)| == |s|
  {
    if s == [] {
    } else {
      var n := |s| - 1;
      assert Elements(s) == Elements(s[..n]) + {s[n]};
      SortSorts(s[..n]);
      assert s[n] !in Elements(s[..n]);
      assert s[n] !in Sort(s[..n]);
      InsertSorted(Sort(s[..n]), s[n]);
    }
  }

  lemma {:induction false} IncreasingUnique(a: seq<Entry>, b: seq<Entry>)
    requires Increasing(a) && Increasing(b) && Elements(a) == Elements(b)
    ensures a == b
  {
    if a == [] {
      if b != [] { LastAgree(b, a); }
    } else {
      var m, n := |a| - 1, |b| - 1;
      LastAgree(a, b);
      assert Elements(a[..m]) == Elements(b[..n]) by {
        WithoutLast(a);
        WithoutLast(b);
      }
      IncreasingUnique(a[..m], b[..n]);
      assert a == a[..m] + [a[m]] && b == b[..n] + [b[n]];
    }
  }

  lemma {:induction false} WithoutLast(a: seq<Entry>)
    requires Increasing(a) && a != []
    ensures Elements(a[..|a| - 1]) == Elements(a) - {a[|a| - 1]}
  {
    var m := |a| - 1;
    forall i | 0 <= i < m ensures a[i] != a[m] {
      BeforeTotal(a[i], a[m]);
    }
  }

  lemma {:induction false} LastAgree(a: seq<Entry>, b: seq<Entry>)
    requires Increasing(a) && Increasing(b) && Elements(a) == Elements(b) && a != []
    ensures b != [] && a[|a| - 1] == b[|b| - 1]
  {
    var m, n := |a| - 1, |b| - 1;
    assert a[m] in Elements(b);
    var i :| 0 <= i < |b| && b[i] == a[m];
    assert b[n] in Elements(a);
    var j :| 0 <= j < |a| && a[j] == b[n];
    if i < n && j < m { BeforeTotal(a[m], b[n]); }
  }

  /** The order in which the map lists its entries does not matter. */
  lemma {:induction false} SortIgnoresOrder(a: seq<Entry>, b: seq<Entry>)
    requires NoRepeats(a) && NoRepeats(b) && Elements(a) == Elements(b) && Keyed(Elements(a))
    ensures Sort(a) == Sort(b)
  {
    SortSorts(a);
    SortSorts(b);
    IncreasingUnique(Sort(a), Sort(b));
  }

  /* ----- selection ----- */

  function Filter(s: seq<Entry>, job: Option<string>, urgent: bool): seq<Entry> {
    if s == [] then []
    else
      var rest := Filter(s[..|s| - 1], job, urgent);
      if UrgentFor(job, s[|s| - 1]) == urgent then rest + [s[|s| - 1]] else rest
  }

  /** The entries of one maintenance pass over a sorted list. */
  function Window(sorted: seq<Entry>, cursor: nat, count: nat): seq<Entry>
    requires sorted != []
  {
    if count == 0 then []
    else Window(sorted, cursor, count - 1) + [sorted[(cursor % |sorted| + (count - 1)) % |sorted|]]
  }

  function Selected(pending: seq<Entry>, job: Option<string>, maintenanceDue: bool, cursor: nat): seq<Entry> {
    var urgent, maintenance := Filter(pending, job, true), Filter(pending, job, false);
    if !maintenanceDue || maintenance == [] then urgent
    else urgent + Window(Sort(maintenance), cursor, Min(BATCH, |Sort(maintenance)|))
  }

  method PendingWinnersForRetry(pending: seq<Entry>, job: Option<string>, maintenanceDue: bool, cursor: nat)
    returns (r: seq<Entry>)
    ensures r == Selected(pending, job, maintenanceDue, cursor)
  {
    var urgent: seq<Entry>, maintenance: seq<Entry> := [], [];
    for i := 0 to |pending|
      invariant urgent == Filter(pending[..i], job, true) && maintenance == Filter(pending[..i], job, false)
    {
      assert pending[..i + 1][..i] == pending[..i];
      if UrgentFor(job, pending[i]) {
        urgent := urgent + [pending[i]];
      } else {
        maintenance := maintenance + [pending[i]];
      }
    }
    assert pending[..|pending|] == pending;
    if !maintenanceDue || maintenance == [] { return urgent; }
    var sorted := Sort(maintenance);
    SortLength(maintenance);
    var start := cursor % |sorted|;
    var count := Min(BATCH, |sorted|);
    ghost var first := urgent;
    for offset := 0 to count
      invariant urgent == first + Window(sorted, cursor, offset)
    {
      urgent := urgent + [sorted[(start + offset) % |sorted|]];
    }
    return urgent;
  }

  lemma {:induction false} InsertLength(s: seq<Entry>, e: Entry)
    ensures |Insert(s, e)| == |s| + 1
  {
    if s == [] {
    } else {
      InsertLength(s[..|s| - 1], e);
    }
  }

  lemma {:induction false} SortLength(s: seq<Entry>)
    ensures |Sort(s)| == |s|
  {
    if s == [] {
    } else {
      SortLength(s[..|s| - 1]);
      InsertLength(Sort(s[..|s| - 1]), s[|s| - 1]);
    }
  }

  lemma {:induction false} FilterHas(s: seq<Entry>, job: Option<string>, urgent: bool, e: Entry)
    ensures e in Filter(s, job, urgent) <==> e in s && UrgentFor(job, e) == urgent
  {
    if s == [] {
    } else {
      FilterHas(s[..|s| - 1], job, urgent, e);
      assert s == s[..|s| - 1] + [s[|s| - 1]];
    }
  }

  lemma {:induction false} InsertHas(s: seq<Entry>, x: Entry, e: Entry)
    ensures e in Insert(s, x) <==> e in s || e == x
  {
    if s == [] {
    } else {
      InsertHas(s[..|s| - 1], x, e);
      assert s == s[..|s| - 1] + [s[|s| - 1]];
    }
  }

  lemma {:induction false} SortHas(s: seq<Entry>, e: Entry)
    ensures e in Sort(s) <==> e in s
  {
    if s == [] {
    } else {
      SortHas(s[..|s| - 1], e);
      InsertHas(Sort(s[..|s| - 1]), s[|s| - 1], e);
      assert s == s[..|s| - 1] + [s[|s| - 1]];
    }
  }

  lemma {:induction false} WindowFrom(sorted: seq<Entry>, cursor: nat, count: nat, e: Entry)
    requires sorted != []
    ensures |Window(sorted, cursor, count)| == count
    ensures e in Window(sorted, cursor, count) ==> e in sorted
  {
    if count == 0 {
    } else {
      WindowFrom(sorted, cursor, count - 1, e);
    }
  }

  /**
   A pass retries every urgent winner and at most two others, and nothing that is not pending.  The others
   are retried only when maintenance is due.
   */
  lemma {:induction false} SelectionIsSound(pending: seq<Entry>, job: Option<string>, due: bool, cursor: nat, e: Entry)
    ensures e in pending && UrgentFor(job, e) ==> e in Selected(pending, job, due, cursor)
    ensures e in Selected(pending, job, due, cursor) ==> e in pending && (UrgentFor(job, e) || due)
    ensures |Selected(pending, job, due, cursor)| <= |Filter(pending, job, true)| + if due then BATCH else 0
  {
    var maintenance := Filter(pending, job, false);
    FilterHas(pending, job, true, e);
    FilterHas(pending, job, false, e);
    SortLength(maintenance);
    SortHas(maintenance, e);
    if maintenance != [] { WindowFrom(Sort(maintenance), cursor, Min(BATCH, |Sort(maintenance)|), e); }
  }

  /* ----- rotation ----- */

  /** A number is its quotient times n plus its remainder in one way only. */
  lemma {:induction false} ModUnique(x: nat, q: int, r: nat, n: nat)
    requires r < n && x == q * n + r
    ensures x % n == r
  {
    var a, b := x / n, x % n;
    assert x == a * n + b;
    if q > a {
      assert (q - a) * n == q * n - a * n;
      TimesAtLeast(q - a, n);
    } else if a > q {
      assert (a - q) * n == a * n - q * n;
      TimesAtLeast(a - q, n);
    }
  }

  lemma {:induction false} ModAdd(a: nat, b: nat, q: int, r: nat, n: nat)
    requires r < n && a + b == q * n + r
    ensures (a % n + b) % n == r
  {
    var k := a / n;
    assert a == k * n + a % n;
    assert (q - k) * n == q * n - k * n;
    ModUnique(a % n + b, q - k, r, n);
  }

  lemma {:induction false} WindowHas(sorted: seq<Entry>, cursor: nat, count: nat, offset: nat, q: int, r: nat)
    requires offset < count && r < |sorted| && cursor + offset == q * |sorted| + r
    ensures sorted[r] in Window(sorted, cursor, count)
  {
    if offset == count - 1 {
      ModAdd(cursor, offset, q, r, |sorted|);
    } else {
      WindowHas(sorted, cursor, count - 1, offset, q, r);
    }
  }

  /** Among any n consecutive numbers one has a given remainder. */
  lemma {:induction false} SomeOffset(cursor: nat, r: nat, n: nat) returns (t: nat, q: nat)
    requires r < n
    ensures t < n && cursor + t == q * n + r
  {
    var c := cursor % n;
    q := cursor / n;
    assert cursor == q * n + c;
    if c <= r {
      t := r - c;
    } else {
      assert (q + 1) * n == q * n + n;
      q, t := q + 1, r + n - c;
    }
  }

  /** How many passes cover n entries. */
  function Passes(n: nat): nat { (n + BATCH - 1) / BATCH }

  /** What one pass is given: the pending winners as the map lists them, and the job that asked for a retry. */
  datatype Pass = Pass(pending: seq<Entry>, job: Option<string>)

  function Maintained(p: Pass): seq<Entry> { Filter(p.pending, p.job, false) }

  /**
   Rotation coverage.  Every pass has the same fixed set of maintenance entries, listed in any order.  The
   cursor advances by two per pass; without a wrap of the cursor, ceil(n/2) passes retry every entry.
   */
  lemma {:induction false} RotationCovers(entries: set<Entry>, passes: seq<Pass>, cursor: nat, e: Entry)
    requires Keyed(entries) && e in entries
    requires forall i :: 0 <= i < |passes| ==> Lists(Maintained(passes[i]), entries)
    requires |passes| >= Passes(|entries|) && cursor + BATCH * |passes| <= USIZE
    ensures exists i :: 0 <= i < |passes| && Retries(passes[i], (cursor + BATCH * i) % USIZE, e)
  {
    assert entries != {};
    var first := Maintained(passes[0]);
    var r := SortedPlace(entries, first, e);
    var i := WindowOf(Sort(first), r, cursor);
    PassRetries(entries, first, passes[i], cursor + BATCH * i, e);
    assert Retries(passes[i], (cursor + BATCH * i) % USIZE, e);
  }

  predicate Retries(p: Pass, cursor: nat, e: Entry) { e in Selected(p.pending, p.job, true, cursor) }

  lemma {:induction false} PassRetries(entries: set<Entry>, first: seq<Entry>, p: Pass, cursor: nat, e: Entry)
    requires Keyed(entries) && Lists(first, entries) && Lists(Maintained(p), entries) && Sort(first) != []
    requires cursor < USIZE && e in Window(Sort(first), cursor, Min(BATCH, |Sort(first)|))
    ensures Retries(p, cursor % USIZE, e)
  {
    SortLength(first);
    SameSort(entries, first, Maintained(p));
    NoWrap(cursor);
    SelectsWindow(p, cursor, e);
  }

  /** A listing of a set, in some order and without repetition. */
  predicate Lists(s: seq<Entry>, entries: set<Entry>) { NoRepeats(s) && Elements(s) == entries }

  lemma {:induction false} NoWrap(c: nat)
    requires c < USIZE
    ensures c % USIZE == c
  {
  }

  lemma {:induction false} SameSort(entries: set<Entry>, a: seq<Entry>, b: seq<Entry>)
    requires Keyed(entries) && Lists(a, entries) && Lists(b, entries) && a != []
    ensures Sort(a) == Sort(b) && b != []
  {
    SortIgnoresOrder(a, b);
    SortLength(a);
    SortLength(b);
  }

  lemma {:induction false} SortedPlace(entries: set<Entry>, listed: seq<Entry>, e: Entry) returns (r: nat)
    requires Keyed(entries) && e in entries && Lists(listed, entries)
    ensures r < |Sort(listed)| && Sort(listed)[r] == e && |Sort(listed)| == |entries| && listed != []
  {
    var sorted := Sort(listed);
    SortSorts(listed);
    IncreasingSize(sorted);
    assert e in Elements(sorted);
    r :| 0 <= r < |sorted| && sorted[r] == e;
  }

  /** The pass that reaches one place of the sorted list. */
  lemma {:induction false} WindowOf(sorted: seq<Entry>, r: nat, cursor: nat) returns (i: nat)
    requires r < |sorted|
    ensures i < Passes(|sorted|)
    ensures sorted[r] in Window(sorted, cursor + BATCH * i, Min(BATCH, |sorted|))
  {
    var t, q := SomeOffset(cursor, r, |sorted|);
    i := t / BATCH;
    assert cursor + BATCH * i + t % BATCH == cursor + t;
    WindowHas(sorted, cursor + BATCH * i, Min(BATCH, |sorted|), t % BATCH, q, r);
  }

  lemma {:induction false} SelectsWindow(p: Pass, cursor: nat, e: Entry)
    requires Maintained(p) != []
    requires Sort(Maintained(p)) != [] && e in Window(Sort(Maintained(p)), cursor, Min(BATCH, |Sort(Maintained(p))|))
    ensures e in Selected(p.pending, p.job, true, cursor)
  {
  }

  lemma {:induction false} IncreasingSize(s: seq<Entry>)
    requires Increasing(s)
    ensures |Elements(s)| == |s|
  {
    if s == [] {
    } else {
      IncreasingSize(s[..|s| - 1]);
      WithoutLast(s);
    }
  }

  /** A wrap of the 64-bit cursor breaks the rotation: four passes over seven entries miss the last one. */
  lemma {:induction false} WrapMissesEntry(sorted: seq<Entry>, i: nat)
    requires |sorted| == 7 && Increasing(sorted) && i < Passes(7)
    ensures sorted[6] !in Window(sorted, (USIZE - 2 + BATCH * i) % USIZE, BATCH)
  {
    var c := (USIZE - 2 + BATCH * i) % USIZE;
    assert c % 7 == if i == 0 then 0 else BATCH * i - 2;
    assert Window(sorted, c, 1) == Window(sorted, c, 0) + [sorted[(c % 7 + 0) % 7]];
    assert Window(sorted, c, BATCH) == Window(sorted, c, 1) + [sorted[(c % 7 + 1) % 7]];
    BeforeTotal(sorted[c % 7], sorted[6]);
    BeforeTotal(sorted[c % 7 + 1], sorted[6]);
    assert Before(sorted[c % 7], sorted[6]) && Before(sorted[c % 7 + 1], sorted[6]);
  }

  /* ----- the scheduler ----- */

  const RETRY_INTERVAL: nat := 15

  /** The shared retry schedule: what was asked for, whether a pass runs, and where maintenance stands. */
  class OutboxRetry {
    var requested: bool
    var inProgress: bool
    var lastMaintenance: nat
    var cursor: nat

    constructor (now: nat)
      ensures !requested && !inProgress && lastMaintenance == now && cursor == 0
    {
      requested, inProgress, lastMaintenance, cursor := false, false, now, 0;
    }

    method RequestRetry()
      modifies `requested
      ensures requested
    {
      requested := true;
    }

    method FinishPass()
      modifies `inProgress
      ensures !inProgress
    {
      inProgress := false;
    }

    /** Claims a due pass and selects its winners; a pass that runs already keeps the schedule as it is. */
    method ClaimPass(now: nat, jobId: string, pending: seq<Entry>) returns (winners: Option<seq<Entry>>)
      modifies this
      ensures old(inProgress) ==> winners.None? && inProgress
      ensures old(inProgress) ==>
                requested == old(requested) && lastMaintenance == old(lastMaintenance) && cursor == old(cursor)
      ensures !old(inProgress) ==>
                var due := now >= old(lastMaintenance) + RETRY_INTERVAL;
                && !requested
                && (winners.Some? <==> old(requested) || due) && (inProgress <==> winners.Some?)
                && lastMaintenance == (if due then now else old(lastMaintenance))
                && cursor == (if winners.Some? then (old(cursor) + BATCH) % USIZE else old(cursor))
                && (winners.Some? ==>
                    winners.value == Selected(pending, if old(requested) then Some(jobId) else None, due, old(cursor)))
    {
      if inProgress { return None; }
      var retryRequested := requested;
      requested := false;
      var maintenanceDue := now >= lastMaintenance + RETRY_INTERVAL;
      if !retryRequested && !maintenanceDue { return None; }
      inProgress := true;
      if maintenanceDue { lastMaintenance := now; }
      var at := cursor;
      cursor := (cursor + BATCH) % USIZE;
      var selected := PendingWinnersForRetry(pending, if retryRequested then Some(jobId) else None, maintenanceDue, at);
      return Some(selected);
    }
  }
}
