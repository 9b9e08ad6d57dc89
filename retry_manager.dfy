/**
 * The retry manager: failed khewats with an error text, a permanent or
 * transient classification and a retry count; the list of retry candidates;
 * and `retry_all`, which retries every candidate once with an exponential,
 * capped sleep before each attempt. The download is an oracle; the sleeps are
 * returned rather than taken.
 */
module RetryManager {
  import opened Wrappers
  import opened Strings

  datatype FailureType = Transient | Permanent

  datatype FailedItem = FailedItem(khewat: int, error: string, failureType: FailureType, retryCount: nat)

  /** What one call of the download function does: returns true, returns false, or raises. */
  datatype DownloadResult = Succeeded | Declined | Raised(message: string)

  const PermanentErrors: seq<string> := ["no record", "not found", "invalid", "does not exist"]

  /** The configured backoff cap of `retry_all`, in seconds. */
  const MaxSleep: real := 30.0

  /** `_classify_error`: permanent iff the lower-cased error mentions one of the permanent patterns. */
  function Classify(error: string): (t: FailureType)
    ensures t == Permanent <==> exists p :: p in PermanentErrors && ContainsLower(error, p)
    ensures t == Transient <==> forall p :: p in PermanentErrors ==> !ContainsLower(error, p)
  {
    if ContainsAny(Lower(error), PermanentErrors) then Permanent else Transient
  }

  // ---------------------------------------------------------------------------
  // The failure list
  // ---------------------------------------------------------------------------

  /** Khewat numbers in the failure list are distinct. */
  predicate Unique(fs: seq<FailedItem>) {
    forall i, j :: 0 <= i < j < |fs| ==> fs[i].khewat != fs[j].khewat
  }

  predicate NoDup(s: seq<int>) {
    forall i, j :: 0 <= i < j < |s| ==> s[i] != s[j]
  }

  /** The index of the first item for khewat `k`. */
  function IndexOf(fs: seq<FailedItem>, k: int): (r: Option<nat>)
    ensures r.Some? ==> r.value < |fs| && fs[r.value].khewat == k
                        && forall j :: 0 <= j < r.value ==> fs[j].khewat != k
    ensures r.None? ==> forall j :: 0 <= j < |fs| ==> fs[j].khewat != k
  {
    if fs == [] then None
    else if fs[0].khewat == k then Some(0)
    else match IndexOf(fs[1..], k)
      case Some(j) => Some(j + 1)
      case None => None
  }

  predicate HasKhewat(fs: seq<FailedItem>, k: int) {
    exists i :: 0 <= i < |fs| && fs[i].khewat == k
  }

  /** `record_failure(k, e)`: bump and re-word an existing item, or append a new one. */
  function Record(fs: seq<FailedItem>, k: int, e: string): seq<FailedItem>
  {
    match IndexOf(fs, k)
    case Some(i) => fs[i := fs[i].(retryCount := fs[i].retryCount + 1, error := e)]
    case None => fs + [FailedItem(k, e, Classify(e), 0)]
  }

  predicate IsRetryable(it: FailedItem, maxRetries: int) {
    it.failureType == Transient && it.retryCount < maxRetries
  }

  /** `get_retryable`: in list order, the khewats of the transient items under the retry limit. */
  function Retryable(fs: seq<FailedItem>, maxRetries: int): (r: seq<int>)
    ensures |r| <= |fs|
    ensures forall x :: x in r ==> exists i :: 0 <= i < |fs| && fs[i].khewat == x && IsRetryable(fs[i], maxRetries)
    ensures forall i :: 0 <= i < |fs| && IsRetryable(fs[i], maxRetries) ==> fs[i].khewat in r
  {
    if fs == [] then []
    else
      var rest := Retryable(fs[1..], maxRetries);
      assert forall x :: x in rest ==> exists i :: 1 <= i < |fs| && fs[i].khewat == x && IsRetryable(fs[i], maxRetries) by {
        forall x | x in rest ensures exists i :: 1 <= i < |fs| && fs[i].khewat == x && IsRetryable(fs[i], maxRetries) {
          var j :| 0 <= j < |fs[1..]| && fs[1..][j].khewat == x && IsRetryable(fs[1..][j], maxRetries);
          assert fs[j + 1] == fs[1..][j];
        }
      }
      assert forall i :: 1 <= i < |fs| ==> fs[i] == fs[1..][i - 1];
      (if IsRetryable(fs[0], maxRetries) then [fs[0].khewat] else []) + rest
  }

  /** `get_permanent_failures`: the permanent items, in list order. */
  function PermanentItems(fs: seq<FailedItem>): (r: seq<FailedItem>)
    ensures |r| <= |fs|
    ensures forall it :: it in r <==> it in fs && it.failureType == Permanent
  {
    if fs == [] then []
    else
      assert forall it :: it in fs <==> it == fs[0] || it in fs[1..];
      (if fs[0].failureType == Permanent then [fs[0]] else []) + PermanentItems(fs[1..])
  }

  /** The list comprehension that drops every item of khewat `k` after a successful retry. */
  function Remove(fs: seq<FailedItem>, k: int): (r: seq<FailedItem>)
    ensures |r| <= |fs|
    ensures forall it :: it in r <==> it in fs && it.khewat != k
  {
    if fs == [] then []
    else
      assert forall it :: it in fs <==> it == fs[0] || it in fs[1..];
      (if fs[0].khewat != k then [fs[0]] else []) + Remove(fs[1..], k)
  }

  /** `2 ** n` as a real. */
  function Pow2(n: nat): (r: real)
    ensures r >= 1.0
  {
    if n == 0 then 1.0 else 2.0 * Pow2(n - 1)
  }

  /** The sleep before a retry: `min(retry_delay * 2 ** retry_count, 30)`. */
  function Backoff(retryDelay: real, retryCount: nat): (r: real)
    ensures r <= MaxSleep && r <= retryDelay * Pow2(retryCount)
    ensures retryDelay * Pow2(retryCount) < MaxSleep ==> r == retryDelay * Pow2(retryCount)
    ensures retryDelay * Pow2(retryCount) >= MaxSleep ==> r == MaxSleep
    ensures retryDelay >= 0.0 ==> r >= 0.0
  {
    var d := retryDelay * Pow2(retryCount);
    if d < MaxSleep then d else MaxSleep
  }

  datatype RetryStats = RetryStats(retried: nat, succeeded: nat, failed: nat)

  /**
   * `retry_all` from snapshot index `i` on: the new failure list, the counters
   * and the sleeps taken. An item that cannot be found (not reached when
   * khewats are distinct, see `RetryAllFindsItems`) is passed over.
   */
  function RetryFrom(fs: seq<FailedItem>, snapshot: seq<int>, i: nat, retryDelay: real, download: int -> DownloadResult)
    : (r: (seq<FailedItem>, nat, nat, seq<real>))
    requires i <= |snapshot|
    decreases |snapshot| - i
  {
    if i == |snapshot| then (fs, 0, 0, [])
    else
      var k := snapshot[i];
      match IndexOf(fs, k)
      case None => RetryFrom(fs, snapshot, i + 1, retryDelay, download)
      case Some(j) =>
        Counted(RetryFrom(Step(fs, k, j, download), snapshot, i + 1, retryDelay, download),
                download(k).Succeeded?, Backoff(retryDelay, fs[j].retryCount))
  }

  /** One more attempt in front of the rest of the run: its outcome counted and its sleep taken first. */
  function Counted(rest: (seq<FailedItem>, nat, nat, seq<real>), ok: bool, sleep: real)
    : (seq<FailedItem>, nat, nat, seq<real>)
  {
    (rest.0, rest.1 + (if ok then 1 else 0), rest.2 + (if ok then 0 else 1), [sleep] + rest.3)
  }

  // ---------------------------------------------------------------------------
  // Properties
  // ---------------------------------------------------------------------------

  /** A new khewat is appended once, with count 0 and its classification; the items before it stay. */
  lemma RecordNew(fs: seq<FailedItem>, k: int, e: string)
    requires !HasKhewat(fs, k)
    ensures Record(fs, k, e) == fs + [FailedItem(k, e, Classify(e), 0)]
  {
  }

  /** A known khewat keeps its place and classification; its count rises by one and its error is replaced. */
  lemma RecordExisting(fs: seq<FailedItem>, k: int, e: string, i: nat)
    requires Unique(fs)
    requires i < |fs| && fs[i].khewat == k
    ensures var fs' := Record(fs, k, e);
      |fs'| == |fs|
      && fs'[i] == FailedItem(k, e, fs[i].failureType, fs[i].retryCount + 1)
      && forall j :: 0 <= j < |fs| && j != i ==> fs'[j] == fs[j]
  {
  }

  lemma RecordKeepsUnique(fs: seq<FailedItem>, k: int, e: string)
    requires Unique(fs)
    ensures Unique(Record(fs, k, e))
  {
  }

  lemma RemoveKeepsUnique(fs: seq<FailedItem>, k: int)
    requires Unique(fs)
    ensures Unique(Remove(fs, k))
    ensures forall it :: it in fs && it.khewat != k ==> it in Remove(fs, k)
  {
    if fs != [] {
      RemoveKeepsUnique(fs[1..], k);
      var r := Remove(fs, k);
      if fs[0].khewat != k {
        forall j | 1 <= j < |r| ensures r[0].khewat != r[j].khewat {
          assert r[j] in Remove(fs[1..], k);
        }
      }
    }
  }

  /** With distinct khewats the candidates are distinct. */
  lemma RetryableNoDup(fs: seq<FailedItem>, maxRetries: int)
    requires Unique(fs)
    ensures NoDup(Retryable(fs, maxRetries))
  {
    if fs != [] {
      RetryableNoDup(fs[1..], maxRetries);
      var rest := Retryable(fs[1..], maxRetries);
      forall x | x in rest ensures x != fs[0].khewat {
        var j :| 0 <= j < |fs[1..]| && fs[1..][j].khewat == x && IsRetryable(fs[1..][j], maxRetries);
        assert fs[1..][j] == fs[j + 1];
      }
      var r := Retryable(fs, maxRetries);
      if IsRetryable(fs[0], maxRetries) {
        assert r == [fs[0].khewat] + rest;
        forall a, b | 0 <= a < b < |r| ensures r[a] != r[b] {
          assert r[b] == rest[b - 1] && r[b] in rest;
          if a > 0 {
            assert r[a] == rest[a - 1];
          }
        }
      } else {
        assert r == rest;
      }
    }
  }

  /** Each further failure doubles the sleep until it reaches the cap, and the sleep never shrinks. */
  lemma BackoffDoubles(retryDelay: real, retryCount: nat)
    requires retryDelay >= 0.0
    ensures Backoff(retryDelay, retryCount + 1) ==
              if 2.0 * Backoff(retryDelay, retryCount) < MaxSleep then 2.0 * Backoff(retryDelay, retryCount) else MaxSleep
    ensures Backoff(retryDelay, retryCount) <= Backoff(retryDelay, retryCount + 1)
  {
    assert retryDelay * Pow2(retryCount + 1) == 2.0 * (retryDelay * Pow2(retryCount));
  }

  /** The candidates of a concatenation are those of each part, in order: the comprehension is a filter. */
  lemma {:induction false} RetryableAppend(a: seq<FailedItem>, b: seq<FailedItem>, maxRetries: int)
    ensures Retryable(a + b, maxRetries) == Retryable(a, maxRetries) + Retryable(b, maxRetries)
  {
    if a != [] {
      assert (a + b)[1..] == a[1..] + b;
      RetryableAppend(a[1..], b, maxRetries);
    } else {
      assert a + b == b;
    }
  }

  /** One item contributes its khewat iff it is transient and under the limit. */
  lemma RetryableOne(it: FailedItem, maxRetries: int)
    ensures Retryable([it], maxRetries) == if IsRetryable(it, maxRetries) then [it.khewat] else []
  {
    assert [it][1..] == [];
  }

  /** Every khewat of the snapshot is still in the list when its turn comes. */
  lemma {:induction false} RetryAllFindsItems(fs: seq<FailedItem>, snapshot: seq<int>, i: nat, retryDelay: real, download: int -> DownloadResult)
    requires i <= |snapshot|
    requires Unique(fs) && NoDup(snapshot)
    requires forall j :: i <= j < |snapshot| ==> HasKhewat(fs, snapshot[j])
    ensures RetryFromFinds(fs, snapshot, i, retryDelay, download)
    decreases |snapshot| - i
  {
    if i < |snapshot| {
      var k := snapshot[i];
      var idx := IndexOf(fs, k);
      if idx.None? {
        assert false;
      }
      var fs' := Step(fs, k, idx.value, download);
      StepKeeps(fs, k, idx.value, download);
      forall j | i + 1 <= j < |snapshot| ensures HasKhewat(fs', snapshot[j]) {
        var w :| 0 <= w < |fs| && fs[w].khewat == snapshot[j];
        assert snapshot[j] != k;
        assert fs[w] in fs;
      }
      RetryAllFindsItems(fs', snapshot, i + 1, retryDelay, download);
    }
  }

  /** The failure list after retrying the item at `j` (khewat `k`). */
  function Step(fs: seq<FailedItem>, k: int, j: nat, download: int -> DownloadResult): seq<FailedItem>
    requires j < |fs|
  {
    match download(k)
    case Succeeded => Remove(fs, k)
    case Declined => fs[j := fs[j].(retryCount := fs[j].retryCount + 1)]
    case Raised(e) => fs[j := fs[j].(retryCount := fs[j].retryCount + 1, error := e)]
  }

  lemma StepKeeps(fs: seq<FailedItem>, k: int, j: nat, download: int -> DownloadResult)
    requires Unique(fs) && j < |fs| && fs[j].khewat == k
    ensures var fs' := Step(fs, k, j, download);
      Unique(fs')
      && (forall it :: it in fs && it.khewat != k ==> it in fs')
      && (forall it :: it in fs' && it.khewat != k ==> it in fs)
  {
    RemoveKeepsUnique(fs, k);
    var fs' := Step(fs, k, j, download);
    if !download(k).Succeeded? {
      forall it | it in fs && it.khewat != k ensures it in fs' {
        var w :| 0 <= w < |fs| && fs[w] == it;
        assert fs'[w] == it;
      }
      forall it | it in fs' && it.khewat != k ensures it in fs {
        var w :| 0 <= w < |fs'| && fs'[w] == it;
        assert fs[w] == it;
      }
    }
  }

  /** Every item `RetryFrom` looks up is present. */
  predicate RetryFromFinds(fs: seq<FailedItem>, snapshot: seq<int>, i: nat, retryDelay: real, download: int -> DownloadResult)
    requires i <= |snapshot|
    decreases |snapshot| - i
  {
    i == |snapshot|
    || (IndexOf(fs, snapshot[i]).Some?
        && RetryFromFinds(Step(fs, snapshot[i], IndexOf(fs, snapshot[i]).value, download), snapshot, i + 1, retryDelay, download))
  }

  /** Each attempt counts once: `succeeded + failed` is the number of candidates, and one sleep precedes each. */
  lemma {:induction false} RetryAllCounts(fs: seq<FailedItem>, snapshot: seq<int>, i: nat, retryDelay: real, download: int -> DownloadResult)
    requires i <= |snapshot|
    requires RetryFromFinds(fs, snapshot, i, retryDelay, download)
    ensures var r := RetryFrom(fs, snapshot, i, retryDelay, download);
      r.1 + r.2 == |snapshot| - i && |r.3| == |snapshot| - i
    decreases |snapshot| - i
  {
    if i < |snapshot| {
      var j := IndexOf(fs, snapshot[i]).value;
      RetryAllCounts(Step(fs, snapshot[i], j, download), snapshot, i + 1, retryDelay, download);
    }
  }

  /** Permanent items are never retried: they are exactly the same before and after `retry_all`. */
  lemma {:induction false} RetryAllKeepsPermanent(fs: seq<FailedItem>, snapshot: seq<int>, i: nat, retryDelay: real,
                                                  download: int -> DownloadResult, maxRetries: int)
    requires i <= |snapshot|
    requires Unique(fs)
    requires forall j :: i <= j < |snapshot| ==> forall it :: it in fs && it.khewat == snapshot[j] ==> it.failureType == Transient
    ensures forall it: FailedItem :: it.failureType == Permanent ==>
      (it in RetryFrom(fs, snapshot, i, retryDelay, download).0 <==> it in fs)
    decreases |snapshot| - i
  {
    if i < |snapshot| {
      var k := snapshot[i];
      match IndexOf(fs, k)
      case None =>
        RetryAllKeepsPermanent(fs, snapshot, i + 1, retryDelay, download, maxRetries);
      case Some(j) =>
        var fs' := Step(fs, k, j, download);
        StepKeeps(fs, k, j, download);
        assert fs[j] in fs;
        forall it: FailedItem | it.failureType == Permanent ensures it in fs' <==> it in fs {
          if it.khewat == k {
            assert fs[j].failureType == Transient;
            if !download(k).Succeeded? {
              assert fs'[j].failureType == Transient;
              assert forall w :: 0 <= w < |fs'| && w != j ==> fs'[w] == fs[w];
            }
          }
        }
        forall j' | i + 1 <= j' < |snapshot| ensures forall it :: it in fs' && it.khewat == snapshot[j'] ==> it.failureType == Transient {
          forall it | it in fs' && it.khewat == snapshot[j'] ensures it.failureType == Transient {
            var w :| 0 <= w < |fs'| && fs'[w] == it;
            if download(k).Succeeded? {
              assert it in fs;
            } else {
              assert fs'[w].failureType == fs[w].failureType && fs'[w].khewat == fs[w].khewat;
              assert fs[w] in fs;
            }
          }
        }
        assert RetryFrom(fs, snapshot, i, retryDelay, download).0 == RetryFrom(fs', snapshot, i + 1, retryDelay, download).0;
        RetryAllKeepsPermanent(fs', snapshot, i + 1, retryDelay, download, maxRetries);
    }
  }

  /**
   * `retry_all` on its own snapshot, `get_retryable()`: with distinct khewats
   * every candidate is attempted once, so `succeeded + failed` is the number
   * of candidates with one sleep each, and the permanent items stay.
   */
  lemma RetryAllOnCandidates(fs: seq<FailedItem>, maxRetries: int, retryDelay: real, download: int -> DownloadResult)
    requires Unique(fs)
    ensures var snapshot := Retryable(fs, maxRetries);
      var r := RetryFrom(fs, snapshot, 0, retryDelay, download);
      r.1 + r.2 == |snapshot| && |r.3| == |snapshot|
      && forall it: FailedItem :: it.failureType == Permanent ==> (it in r.0 <==> it in fs)
  {
    var snapshot := Retryable(fs, maxRetries);
    RetryableNoDup(fs, maxRetries);
    forall j | 0 <= j < |snapshot| ensures HasKhewat(fs, snapshot[j]) {
      assert snapshot[j] in snapshot;
    }
    RetryAllFindsItems(fs, snapshot, 0, retryDelay, download);
    RetryAllCounts(fs, snapshot, 0, retryDelay, download);
    forall j | 0 <= j < |snapshot|
      ensures forall it :: it in fs && it.khewat == snapshot[j] ==> it.failureType == Transient
    {
      assert snapshot[j] in snapshot;
      var w :| 0 <= w < |fs| && fs[w].khewat == snapshot[j] && IsRetryable(fs[w], maxRetries);
      forall it | it in fs && it.khewat == snapshot[j] ensures it.failureType == Transient {
        var v :| 0 <= v < |fs| && fs[v] == it;
        assert v == w;
      }
    }
    RetryAllKeepsPermanent(fs, snapshot, 0, retryDelay, download, maxRetries);
  }

  /** One step of `RetryFrom` at a found item. */
  lemma RetryFromUnfold(fs: seq<FailedItem>, snapshot: seq<int>, i: nat, j: nat, retryDelay: real, download: int -> DownloadResult)
    requires i < |snapshot| && IndexOf(fs, snapshot[i]) == Some(j)
    ensures var k := snapshot[i];
      var rest := RetryFrom(Step(fs, k, j, download), snapshot, i + 1, retryDelay, download);
      var ok := download(k).Succeeded?;
      RetryFrom(fs, snapshot, i, retryDelay, download)
        == Counted(rest, ok, Backoff(retryDelay, fs[j].retryCount))
  {
    var k := snapshot[i];
    assert IndexOf(fs, k) == Some(j);
  }

  /** The loop condition of `retry_all`: khewats distinct, and every candidate from `n` on still listed. */
  predicate CandidatesListed(fs: seq<FailedItem>, snapshot: seq<int>, n: nat) {
    Unique(fs) && forall i :: n <= i < |snapshot| ==> HasKhewat(fs, snapshot[i])
  }

  /** One retry finds its item, keeps the khewats distinct and the later candidates listed. */
  lemma RetryStepKeeps(fs: seq<FailedItem>, snapshot: seq<int>, n: nat, download: int -> DownloadResult)
    requires n < |snapshot| && NoDup(snapshot) && CandidatesListed(fs, snapshot, n)
    ensures IndexOf(fs, snapshot[n]).Some?
    ensures CandidatesListed(Step(fs, snapshot[n], IndexOf(fs, snapshot[n]).value, download), snapshot, n + 1)
  {
    var k := snapshot[n];
    assert HasKhewat(fs, k);
    var j := IndexOf(fs, k).value;
    var fs' := Step(fs, k, j, download);
    StepKeeps(fs, k, j, download);
    forall i | n < i < |snapshot| ensures HasKhewat(fs', snapshot[i]) {
      var w :| 0 <= w < |fs| && fs[w].khewat == snapshot[i];
      assert snapshot[i] != k;
      assert fs[w] in fs;
      var w' :| 0 <= w' < |fs'| && fs'[w'] == fs[w];
    }
  }

  /** The invariant of the `retry_all` loop at index `n`, against the whole run `spec`. */
  predicate RetryLoop(fs: seq<FailedItem>, snapshot: seq<int>, n: nat, retryDelay: real, download: int -> DownloadResult,
                      succeeded: nat, failed: nat, sleeps: seq<real>, spec: (seq<FailedItem>, nat, nat, seq<real>))
    requires n <= |snapshot|
  {
    var r := RetryFrom(fs, snapshot, n, retryDelay, download);
    CandidatesListed(fs, snapshot, n)
    && r.0 == spec.0 && r.1 + succeeded == spec.1 && r.2 + failed == spec.2 && sleeps + r.3 == spec.3
  }

  /** One iteration of the `retry_all` loop keeps its invariant. */
  lemma RetryLoopStep(fs: seq<FailedItem>, snapshot: seq<int>, n: nat, retryDelay: real, download: int -> DownloadResult,
                      succeeded: nat, failed: nat, sleeps: seq<real>, spec: (seq<FailedItem>, nat, nat, seq<real>))
    requires n < |snapshot| && NoDup(snapshot)
    requires RetryLoop(fs, snapshot, n, retryDelay, download, succeeded, failed, sleeps, spec)
    ensures IndexOf(fs, snapshot[n]).Some?
    ensures var k := snapshot[n];
      var j := IndexOf(fs, k).value;
      var ok := download(k).Succeeded?;
      RetryLoop(Step(fs, k, j, download), snapshot, n + 1, retryDelay, download,
                succeeded + (if ok then 1 else 0), failed + (if ok then 0 else 1),
                sleeps + [Backoff(retryDelay, fs[j].retryCount)], spec)
  {
    RetryStepKeeps(fs, snapshot, n, download);
    var j := IndexOf(fs, snapshot[n]).value;
    RetryFromUnfold(fs, snapshot, n, j, retryDelay, download);
    var rest := RetryFrom(Step(fs, snapshot[n], j, download), snapshot, n + 1, retryDelay, download);
    assert sleeps + ([Backoff(retryDelay, fs[j].retryCount)] + rest.3)
        == (sleeps + [Backoff(retryDelay, fs[j].retryCount)]) + rest.3;
  }

  // ---------------------------------------------------------------------------
  // The manager object
  // ---------------------------------------------------------------------------

  datatype RetrySummary = RetrySummary(total: nat, retryable: nat, permanent: nat)

  /** `max_retries or configured`: an absent or zero argument falls back to the configured value. */
  function EffectiveMaxRetries(arg: Option<int>, configured: int): (r: int)
    ensures arg.Some? && arg.value != 0 ==> r == arg.value
    ensures arg.None? || arg.value == 0 ==> r == configured
  {
    if arg.Some? && arg.value != 0 then arg.value else configured
  }

  class RetryManager {
    const maxRetries: int
    const retryDelay: real
    var failures: seq<FailedItem>

    ghost predicate Valid()
      reads this
    {
      Unique(failures)
    }

    /** `configuredMaxRetries` and `retryDelay` are the values read from the retry section of the configuration. */
    constructor (maxRetriesArg: Option<int>, configuredMaxRetries: int, retryDelay: real)
      ensures Valid() && failures == []
      ensures maxRetries == EffectiveMaxRetries(maxRetriesArg, configuredMaxRetries)
      ensures this.retryDelay == retryDelay
    {
      maxRetries := EffectiveMaxRetries(maxRetriesArg, configuredMaxRetries);
      this.retryDelay := retryDelay;
      failures := [];
    }

    method RecordFailure(k: int, e: string)
      requires Valid()
      modifies this
      ensures Valid()
      ensures failures == Record(old(failures), k, e)
    {
      var t := Classify(e);
      var i := 0;
      while i < |failures|
        invariant 0 <= i <= |failures|
        invariant forall j :: 0 <= j < i ==> failures[j].khewat != k
      {
        if failures[i].khewat == k {
          assert IndexOf(failures, k) == Some(i);
          failures := failures[i := failures[i].(retryCount := failures[i].retryCount + 1, error := e)];
          RecordKeepsUnique(old(failures), k, e);
          return;
        }
        i := i + 1;
      }
      failures := failures + [FailedItem(k, e, t, 0)];
      RecordKeepsUnique(old(failures), k, e);
    }

    function GetRetryable(): (r: seq<int>)
      reads this
      ensures r == Retryable(failures, maxRetries)
    {
      Retryable(failures, maxRetries)
    }

    function GetPermanentFailures(): (r: seq<FailedItem>)
      reads this
      ensures r == PermanentItems(failures)
    {
      PermanentItems(failures)
    }

    function Summary(): (r: RetrySummary)
      reads this
      ensures r.total == |failures|
      ensures r.retryable == |Retryable(failures, maxRetries)| && r.permanent == |PermanentItems(failures)|
    {
      RetrySummary(|failures|, |GetRetryable()|, |GetPermanentFailures()|)
    }

    /** One attempt of `retry_all` at index `j`, khewat `k`; true when the download succeeded. */
    method RetryOne(k: int, j: nat, download: int -> DownloadResult) returns (ok: bool)
      requires j < |failures|
      modifies this
      ensures failures == Step(old(failures), k, j, download)
      ensures ok == download(k).Succeeded?
    {
      match download(k) {
        case Succeeded =>
          failures := Remove(failures, k);
          return true;
        case Declined =>
          failures := failures[j := failures[j].(retryCount := failures[j].retryCount + 1)];
          return false;
        case Raised(e) =>
          failures := failures[j := failures[j].(retryCount := failures[j].retryCount + 1, error := e)];
          return false;
      }
    }

    /** `retry_all(download)`: the counters, and the sleeps it takes before each attempt. */
    method RetryAll(download: int -> DownloadResult) returns (stats: RetryStats, sleeps: seq<real>)
      requires Valid()
      modifies this
      ensures Valid()
      ensures var snapshot := Retryable(old(failures), maxRetries);
        var r := RetryFrom(old(failures), snapshot, 0, retryDelay, download);
        failures == r.0 && stats == RetryStats(|snapshot|, r.1, r.2) && sleeps == r.3
    {
      var retryable := GetRetryable();
      if retryable == [] {
        return RetryStats(0, 0, 0), [];
      }
      RetryableNoDup(failures, maxRetries);
      assert forall j :: 0 <= j < |retryable| ==> retryable[j] in retryable;
      ghost var spec := RetryFrom(failures, retryable, 0, retryDelay, download);
      var succeeded, failed := 0, 0;
      sleeps := [];
      var n := 0;
      assert sleeps + spec.3 == spec.3;
      while n < |retryable|
        invariant 0 <= n <= |retryable|
        invariant RetryLoop(failures, retryable, n, retryDelay, download, succeeded, failed, sleeps, spec)
      {
        var k := retryable[n];
        RetryLoopStep(failures, retryable, n, retryDelay, download, succeeded, failed, sleeps, spec);
        var j := IndexOf(failures, k).value;
        sleeps := sleeps + [Backoff(retryDelay, failures[j].retryCount)];
        var ok := RetryOne(k, j, download);
        if ok {
          succeeded := succeeded + 1;
        } else {
          failed := failed + 1;
        }
        n := n + 1;
      }
      assert sleeps + [] == sleeps;
      stats := RetryStats(|retryable|, succeeded, failed);
    }
  }
}
