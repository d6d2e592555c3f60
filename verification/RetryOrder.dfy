/**
 Which winners a retry pass selects, stated without sorting: the urgent ones of the job that asked, and those
 whose rank among the others, by chain name, height and share identifier, is at the cursor.
 */
module RetryOrder {
  import opened Common
  import opened JournalRecord
  import opened RetryRotation
  import opened RetryCoverage

  /** The first byte that differs decides, and a proper prefix comes first. */
  predicate Lexicographic(a: seq<byte>, b: seq<byte>) {
    exists i :: 0 <= i <= |a| && Decides(a, b, i)
  }

  predicate Decides(a: seq<byte>, b: seq<byte>, i: nat)
    requires i <= |a|
  {
    i < |b| && a[..i] == b[..i] && (i == |a| || a[i] < b[i])
  }

  /** The documented order: chain name, then height, then share identifier. */
  predicate Earlier(a: Entry, b: Entry) {
    || (a.chain == Wcash && b.chain == Zcash)
    || (a.chain == b.chain && a.height < b.height)
    || (a.chain == b.chain && a.height == b.height && Lexicographic(a.shareId, b.shareId))
  }

  lemma {:induction false} DecidesRest(a: seq<byte>, b: seq<byte>, i: nat)
    requires a != [] && b != [] && a[0] == b[0] && i < |a|
    ensures Decides(a[1..], b[1..], i) <==> Decides(a, b, i + 1)
  {
    if i < |b[1..]| {
      assert a[..i + 1] == [a[0]] + a[1..][..i] && b[..i + 1] == [b[0]] + b[1..][..i];
      assert a[..i + 1] == b[..i + 1] ==> a[1..][..i] == b[1..][..i] by {
        assert a[..i + 1][1..] == a[1..][..i] && b[..i + 1][1..] == b[1..][..i];
      }
    }
  }

  lemma {:induction false} BytesLessIff(a: seq<byte>, b: seq<byte>)
    ensures BytesLess(a, b) <==> Lexicographic(a, b)
  {
    if b == [] {
    } else if a == [] || a[0] < b[0] {
      assert Decides(a, b, 0);
    } else if a[0] == b[0] {
      BytesLessIff(a[1..], b[1..]);
      if i :| 0 <= i <= |a[1..]| && Decides(a[1..], b[1..], i) {
        DecidesRest(a, b, i);
        assert Decides(a, b, i + 1);
      }
      if i :| 0 <= i <= |a| && Decides(a, b, i) {
        assert i > 0;
        DecidesRest(a, b, i - 1);
        assert Decides(a[1..], b[1..], i - 1);
      }
    } else if i :| 0 <= i <= |a| && Decides(a, b, i) {
      assert i > 0 ==> a[..i][0] == a[0] && b[..i][0] == b[0];
    }
  }

  lemma {:induction false} BeforeIff(a: Entry, b: Entry)
    ensures Before(a, b) <==> Earlier(a, b)
  {
    BytesLessIff(a.shareId, b.shareId);
  }

  /** A pending winner of the job that asked, not seen on its chain and not in conflict. */
  predicate Urgent(job: Option<string>, e: Entry) { job == Some(e.jobId) && !e.observed && !e.conflicting }

  function Others(pending: seq<Entry>, job: Option<string>): set<Entry> { set e | e in pending && !Urgent(job, e) }

  /** How many of the others come before an entry. */
  function Rank(others: set<Entry>, e: Entry): nat { |set x | x in others && Earlier(x, e)| }

  /** In a sorted list the rank of an entry is its place. */
  lemma {:induction false} PlaceIsRank(sorted: seq<Entry>, r: nat)
    requires Increasing(sorted) && r < |sorted|
    ensures Rank(Elements(sorted), sorted[r]) == r
  {
    var before := set x | x in Elements(sorted) && Earlier(x, sorted[r]);
    forall x ensures x in before <==> x in Elements(sorted[..r]) {
      if x in Elements(sorted) {
        var i :| 0 <= i < |sorted| && sorted[i] == x;
        BeforeIff(x, sorted[r]);
        BeforeTotal(x, sorted[r]);
        if i < r { assert x in sorted[..r]; }
      }
    }
    assert before == Elements(sorted[..r]);
    IncreasingSize(sorted[..r]);
  }

  lemma {:induction false} OthersAre(pending: seq<Entry>, job: Option<string>)
    ensures Elements(Filter(pending, job, false)) == Others(pending, job)
  {
    forall e ensures e in Filter(pending, job, false) <==> e in Others(pending, job) {
      FilterHas(pending, job, false, e);
    }
  }

  lemma {:induction false} FilterKeepsKeys(pending: seq<Entry>, job: Option<string>)
    requires NoRepeats(pending)
    ensures NoRepeats(Filter(pending, job, false))
  {
    if pending == [] {
    } else {
      var n := |pending| - 1;
      FilterKeepsKeys(pending[..n], job);
      FilterHas(pending[..n], job, false, pending[n]);
    }
  }

  /** The place of an entry in the window of a sorted list. */
  lemma {:induction false} InWindowIff(sorted: seq<Entry>, cursor: nat, r: nat)
    requires Increasing(sorted) && r < |sorted|
    ensures sorted[r] in Window(sorted, cursor, Min(2, |sorted|)) <==>
            r == cursor % |sorted| || r == (cursor + 1) % |sorted|
  {
    var n := |sorted|;
    OffsetPlaces(cursor, n);
    if n == 1 {
      assert Window(sorted, cursor, 1) == Window(sorted, cursor, 0) + [sorted[(cursor % n + 0) % n]];
    } else {
      WindowPair(sorted, cursor, cursor % n, (cursor + 1) % n, r);
    }
  }

  /**
   Exactly what a pass selects.  A pending winner is retried if and only if it is urgent for the job that asked,
   or maintenance is due and its rank among the others is at the cursor or next to it, modulo their number.
   */
  lemma {:induction false} SelectedIff(pending: seq<Entry>, job: Option<string>, due: bool, cursor: nat, e: Entry)
    requires NoRepeats(pending) && Keyed(Elements(pending))
    ensures var others := Others(pending, job);
            e in Selected(pending, job, due, cursor) <==>
            && e in pending
            && (|| Urgent(job, e)
                || (due && others != {}
                    && (Rank(others, e) == cursor % |others| || Rank(others, e) == (cursor + 1) % |others|)))
  {
    var maintenance, others := Filter(pending, job, false), Others(pending, job);
    FilterHas(pending, job, true, e);
    FilterHas(pending, job, false, e);
    OthersAre(pending, job);
    FilterKeepsKeys(pending, job);
    assert Elements(maintenance) <= Elements(pending);
    SortSorts(maintenance);
    var sorted := Sort(maintenance);
    IncreasingSize(sorted);
    SortHas(maintenance, e);
    if e in sorted {
      var r :| 0 <= r < |sorted| && sorted[r] == e;
      PlaceIsRank(sorted, r);
      InWindowIff(sorted, cursor, r);
    } else if sorted != [] {
      WindowFrom(sorted, cursor, Min(2, |sorted|), e);
    }
  }
}
