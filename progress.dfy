/**
 * The resumable progress record shared by both scrapers: the ascending list of
 * completed khewat numbers and the map from `str(khewat)` to the last error text.
 * The HTTP scraper and the Selenium scraper carry the same tracker (the HTTP one
 * behind a lock); one model serves both.
 */
module Progress {
  import opened Strings

  // ---------------------------------------------------------------------------
  // Ordering helpers
  // ---------------------------------------------------------------------------

  predicate Sorted(s: seq<int>) {
    forall i, j :: 0 <= i < j < |s| ==> s[i] <= s[j]
  }

  predicate StrictlySorted(s: seq<int>) {
    forall i, j :: 0 <= i < j < |s| ==> s[i] < s[j]
  }

  /** Insert `x` into a sorted list, after any equal elements. */
  function InsertSorted(s: seq<int>, x: int): (r: seq<int>)
    requires Sorted(s)
    ensures |r| == |s| + 1
    ensures r[0] == if s == [] || x < s[0] then x else s[0]
    ensures Sorted(r)
    ensures multiset(r) == multiset(s) + multiset{x}
  {
    if s == [] then [x]
    else if x < s[0] then [x] + s
    else
      var t := InsertSorted(s[1..], x);
      assert s == [s[0]] + s[1..];
      assert multiset(s) == multiset{s[0]} + multiset(s[1..]);
      assert s[0] <= t[0];
      [s[0]] + t
  }

  /** Python's `list.sort()` on integers: an ascending permutation. */
  function Sort(s: seq<int>): (r: seq<int>)
    ensures Sorted(r)
    ensures multiset(r) == multiset(s)
  {
    if s == [] then []
    else
      assert s == s[..|s| - 1] + [s[|s| - 1]];
      InsertSorted(Sort(s[..|s| - 1]), s[|s| - 1])
  }

  lemma CountTwo(r: seq<int>, i: int, j: int)
    requires 0 <= i < j < |r| && r[i] == r[j]
    ensures multiset(r)[r[i]] >= 2
  {
    assert r == r[..j] + [r[j]] + r[j + 1..];
    assert r[..j][i] == r[i];
    assert r[i] in multiset(r[..j]);
  }

  lemma StrictCountAtMostOne(s: seq<int>, x: int)
    requires StrictlySorted(s)
    ensures multiset(s)[x] <= 1
  {
    if s != [] {
      var p := s[..|s| - 1];
      assert s == p + [s[|s| - 1]];
      StrictCountAtMostOne(p, x);
      if x == s[|s| - 1] {
        assert x !in p;
      }
    }
  }

  /** Sorting a list with no repeated element gives a strictly ascending list. */
  lemma SortDistinctIsStrict(s: seq<int>)
    requires forall x :: multiset(s)[x] <= 1
    ensures StrictlySorted(Sort(s))
  {
    var r := Sort(s);
    forall i, j | 0 <= i < j < |r| ensures r[i] < r[j] {
      if r[i] == r[j] {
        CountTwo(r, i, j);
      }
    }
  }

  // ---------------------------------------------------------------------------
  // The progress record and its operations
  // ---------------------------------------------------------------------------

  /** `completed` and `failed` of the tracker's JSON data (config and timestamp are not modelled). */
  datatype ProgressData = ProgressData(completed: seq<int>, failed: map<string, string>)

  /**
   * `mark_complete(k)`: append and re-sort when `k` is new, then drop `str(k)`
   * from the failures.
   */
  function MarkCompleted(d: ProgressData, k: int): ProgressData
  {
    var c := if k in d.completed then d.completed else Sort(d.completed + [k]);
    ProgressData(c, d.failed - {IntToString(k)})
  }

  /** `mark_failed(k, e)`: record (or overwrite) the error for `str(k)`. */
  function MarkFailedData(d: ProgressData, k: int, e: string): ProgressData
  {
    ProgressData(d.completed, d.failed[IntToString(k) := e])
  }

  /**
   * `get_pending(start, end)`: the ids of `range(start, end + 1)` that are not
   * completed, in ascending order.
   */
  function Pending(completed: seq<int>, start: int, end: int): (r: seq<int>)
    ensures StrictlySorted(r)
    ensures forall x :: x in r <==> start <= x <= end && x !in completed
    decreases end - start
  {
    if end < start then []
    else
      var p := Pending(completed, start, end - 1);
      assert forall i | 0 <= i < |p| :: p[i] in p;
      if end in completed then p else p + [end]
  }

  /** The three numbers of `get_summary`; the pending count uses the configured range, not the argument of any call. */
  datatype Summary = Summary(completed: int, failed: int, pending: int)

  function SummaryOf(d: ProgressData, khewatStart: int, khewatEnd: int): (r: Summary)
    ensures r.completed == |d.completed| && r.failed == |d.failed|
    ensures r.pending == (khewatEnd - khewatStart + 1) - |d.completed|
  {
    Summary(|d.completed|, |d.failed|, (khewatEnd - khewatStart + 1) - |d.completed|)
  }

  /** The summary line as printed: `Completed: X, Failed: Y, Pending: Z`. */
  function SummaryText(s: Summary): string
  {
    "Completed: " + IntToString(s.completed) + ", Failed: " + IntToString(s.failed)
    + ", Pending: " + IntToString(s.pending)
  }

  // ---------------------------------------------------------------------------
  // Properties
  // ---------------------------------------------------------------------------

  /**
   * On a strictly ascending list, `mark_complete(k)` leaves a strictly ascending
   * list holding exactly the old ids plus `k`.
   */
  lemma MarkCompletedKeepsOrder(d: ProgressData, k: int)
    requires StrictlySorted(d.completed)
    ensures var c := MarkCompleted(d, k).completed;
      StrictlySorted(c) && (forall x :: x in c <==> x in d.completed || x == k)
  {
    if k !in d.completed {
      var s := d.completed + [k];
      forall x ensures multiset(s)[x] <= 1 {
        StrictCountAtMostOne(d.completed, x);
        assert multiset(s) == multiset(d.completed) + multiset{k};
      }
      SortDistinctIsStrict(s);
      var c := Sort(s);
      forall x ensures x in c <==> x in d.completed || x == k {
        assert x in c <==> x in multiset(c);
        assert x in s <==> x in multiset(s);
      }
    }
  }

  /** `k` appears exactly once in the completed list afterwards, and its length grows by one only when `k` was new. */
  lemma MarkCompletedOnce(d: ProgressData, k: int)
    requires StrictlySorted(d.completed)
    ensures var c := MarkCompleted(d, k).completed;
      multiset(c)[k] == 1
      && |c| == |d.completed| + (if k in d.completed then 0 else 1)
  {
    var c := MarkCompleted(d, k).completed;
    MarkCompletedKeepsOrder(d, k);
    StrictCountAtMostOne(c, k);
    assert k in multiset(c);
    if k !in d.completed {
      assert |multiset(c)| == |multiset(d.completed + [k])|;
    }
  }

  /** `mark_complete(k)` removes the failure of `k` and no other. */
  lemma MarkCompletedFailures(d: ProgressData, k: int)
    ensures var f := MarkCompleted(d, k).failed;
      IntToString(k) !in f
      && forall key :: key != IntToString(k) ==>
           (key in f <==> key in d.failed) && (key in f ==> f[key] == d.failed[key])
  {
  }

  /** `mark_failed(k, e)` overwrites the error for `k` and leaves the completed list alone. */
  lemma MarkFailedEffect(d: ProgressData, k: int, e: string)
    ensures var d' := MarkFailedData(d, k, e);
      d'.completed == d.completed && d'.failed[IntToString(k)] == e
      && forall key :: key in d.failed && key != IntToString(k) ==> key in d'.failed && d'.failed[key] == d.failed[key]
  {
  }

  /**
   * Completed and failed are not kept disjoint: a khewat marked complete and then
   * marked failed sits in both collections.
   */
  lemma CompletedAndFailedOverlap(k: int, e: string)
    ensures var d := MarkFailedData(MarkCompleted(ProgressData([], map[]), k), k, e);
      k in d.completed && IntToString(k) in d.failed
  {
    assert Sort([] + [k]) == [k];
  }

  /** How many entries of `c` lie in `[start, end]`. */
  function CountInRange(c: seq<int>, start: int, end: int): (n: nat)
    ensures n <= |c|
  {
    if c == [] then 0
    else (if start <= c[0] <= end then 1 else 0) + CountInRange(c[1..], start, end)
  }

  /** Widening the range by `end` adds the occurrences of `end`. */
  lemma {:induction false} CountInRangeStep(c: seq<int>, start: int, end: int)
    requires start <= end
    ensures CountInRange(c, start, end) == CountInRange(c, start, end - 1) + multiset(c)[end]
  {
    if c != [] {
      assert c == [c[0]] + c[1..];
      assert multiset(c) == multiset{c[0]} + multiset(c[1..]);
      CountInRangeStep(c[1..], start, end);
    }
  }

  lemma {:induction false} CountInRangeAll(c: seq<int>, start: int, end: int)
    requires forall x :: x in c ==> start <= x <= end
    ensures CountInRange(c, start, end) == |c|
  {
    if c != [] {
      assert c[0] in c;
      forall x | x in c[1..] ensures start <= x <= end {
        assert x in c;
      }
      CountInRangeAll(c[1..], start, end);
    }
  }

  lemma {:induction false} CountInRangeEmpty(c: seq<int>, start: int, end: int)
    requires end < start
    ensures CountInRange(c, start, end) == 0
  {
    if c != [] {
      CountInRangeEmpty(c[1..], start, end);
    }
  }

  /** Every id of the range is either pending or counted once among the completed ones. */
  lemma {:induction false} PendingPlusCompleted(c: seq<int>, start: int, end: int)
    requires StrictlySorted(c)
    ensures |Pending(c, start, end)| + CountInRange(c, start, end) == if end < start then 0 else end - start + 1
    decreases end - start
  {
    if end < start {
      CountInRangeEmpty(c, start, end);
    } else {
      PendingPlusCompleted(c, start, end - 1);
      CountInRangeStep(c, start, end);
      StrictCountAtMostOne(c, end);
      assert end in c <==> end in multiset(c);
      if end - 1 < start {
        CountInRangeEmpty(c, start, end - 1);
      }
    }
  }

  /**
   * The pending count of the summary, `total - len(completed)`, is the number of
   * ids `get_pending` returns when every completed id lies in the configured range.
   */
  lemma SummaryPendingMatches(d: ProgressData, khewatStart: int, khewatEnd: int)
    requires StrictlySorted(d.completed)
    requires forall x :: x in d.completed ==> khewatStart <= x <= khewatEnd
    requires khewatStart <= khewatEnd + 1
    ensures SummaryOf(d, khewatStart, khewatEnd).pending == |Pending(d.completed, khewatStart, khewatEnd)|
  {
    PendingPlusCompleted(d.completed, khewatStart, khewatEnd);
    CountInRangeAll(d.completed, khewatStart, khewatEnd);
  }

  /**
   * Without that premise the two disagree: ids completed outside the range are
   * still subtracted, so the printed pending count can even be negative.
   */
  lemma SummaryPendingOutsideRange()
    ensures var d := ProgressData([5, 6], map[]);
      SummaryOf(d, 1, 1).pending == -1 && Pending(d.completed, 1, 1) == [1]
  {
    assert Pending([5, 6], 1, 0) == [];
  }

  /** Completing 2 and 4, then asking for the pending ids of 1 to 5, gives 1, 3 and 5. */
  lemma PendingExample()
    ensures var d := MarkCompleted(MarkCompleted(ProgressData([], map[]), 2), 4);
      Pending(d.completed, 1, 5) == [1, 3, 5]
  {
    var d1 := MarkCompleted(ProgressData([], map[]), 2);
    CompleteTwo();
    CompleteFour(d1);
    PendingOfTwoFour();
  }

  lemma CompleteTwo()
    ensures MarkCompleted(ProgressData([], map[]), 2).completed == [2]
  {
    assert [] + [2] == [2];
    assert [2][..0] == [];
    assert Sort([2]) == InsertSorted(Sort([]), 2);
  }

  lemma CompleteFour(d: ProgressData)
    requires d.completed == [2]
    ensures MarkCompleted(d, 4).completed == [2, 4]
  {
    assert [2] + [4] == [2, 4];
    assert [2, 4][..1] == [2];
    assert Sort([2]) == [2] by {
      assert [2][..0] == [];
    }
    assert InsertSorted([2], 4) == [2] + InsertSorted([], 4);
  }

  lemma PendingOfTwoFour()
    ensures Pending([2, 4], 1, 5) == [1, 3, 5]
  {
    var c := [2, 4];
    assert Pending(c, 1, 0) == [];
    assert Pending(c, 1, 1) == [1];
    assert Pending(c, 1, 2) == [1];
    assert Pending(c, 1, 3) == [1, 3];
    assert Pending(c, 1, 4) == [1, 3];
  }

  // ---------------------------------------------------------------------------
  // The tracker object
  // ---------------------------------------------------------------------------

  class ProgressTracker {
    var completed: seq<int>
    var failed: map<string, string>

    /** The completed list is strictly ascending (true of every tracker built here; a loaded file is not modelled). */
    ghost predicate Valid()
      reads this
    {
      StrictlySorted(completed)
    }

    function Data(): ProgressData
      reads this
    {
      ProgressData(completed, failed)
    }

    /** A fresh tracker (no progress file): nothing completed, nothing failed. */
    constructor ()
      ensures Valid()
      ensures completed == [] && failed == map[]
    {
      completed := [];
      failed := map[];
    }

    method MarkComplete(k: int)
      requires Valid()
      modifies this
      ensures Valid()
      ensures Data() == MarkCompleted(old(Data()), k)
    {
      if k !in completed {
        completed := completed + [k];
        completed := Sort(completed);
      }
      failed := failed - {IntToString(k)};
      MarkCompletedKeepsOrder(old(Data()), k);
    }

    method MarkFailed(k: int, e: string)
      requires Valid()
      modifies this
      ensures Valid()
      ensures Data() == MarkFailedData(old(Data()), k, e)
    {
      failed := failed[IntToString(k) := e];
    }

    /** `get_pending(start, end)`; it reads the tracker and changes nothing. */
    function GetPending(start: int, end: int): (r: seq<int>)
      reads this
      ensures StrictlySorted(r)
      ensures forall x :: x in r <==> start <= x <= end && x !in completed
    {
      Pending(completed, start, end)
    }

    /** `get_summary()` against the configured `khewat_start`/`khewat_end`. */
    function GetSummary(khewatStart: int, khewatEnd: int): (r: string)
      reads this
      ensures r == SummaryText(Summary(|completed|, |failed|, (khewatEnd - khewatStart + 1) - |completed|))
      ensures Valid() && (forall x :: x in completed ==> khewatStart <= x <= khewatEnd) && khewatStart <= khewatEnd + 1 ==>
        r == SummaryText(Summary(|completed|, |failed|, |GetPending(khewatStart, khewatEnd)|))
    {
      // Both branches compute the same line; the lemma call only supplies the proof of the second ensures.
      if StrictlySorted(completed) && (forall x :: x in completed ==> khewatStart <= x <= khewatEnd) && khewatStart <= khewatEnd + 1 then
        SummaryPendingMatches(Data(), khewatStart, khewatEnd);
        SummaryText(SummaryOf(Data(), khewatStart, khewatEnd))
      else
        SummaryText(SummaryOf(Data(), khewatStart, khewatEnd))
    }
  }
}
