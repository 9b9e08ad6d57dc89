/**
 * The download statistics tracker: completed, failed and byte counters, a
 * sliding window of recent success times for the download speed, and the
 * derived figures (pending, speed, ETA, success rate) with their text forms.
 * The clock is a parameter ("now"). Each window entry of the source is a
 * `(time, 1)` pair; only the time is kept, since the count is always 1.
 */
module Statistics {
  import opened Wrappers
  import opened Strings

  datatype TrackerState = TrackerState(
    total: int,
    completed: nat,
    failed: nat,
    bytesDownloaded: int,
    recent: seq<real>,
    startTime: real)

  function InitialState(totalItems: int, now: real): (s: TrackerState)
    ensures s.completed == 0 && s.failed == 0 && s.bytesDownloaded == 0 && s.recent == []
  {
    TrackerState(totalItems, 0, 0, 0, [], now)
  }

  // ---------------------------------------------------------------------------
  // The sliding window
  // ---------------------------------------------------------------------------

  /** `_prune_old_entries`: drop entries from the front while they are older than `cutoff`. */
  function Pruned(w: seq<real>, cutoff: real): (r: seq<real>)
    ensures |r| <= |w| && r == w[|w| - |r|..]
    ensures forall i :: 0 <= i < |w| - |r| ==> w[i] < cutoff
    ensures r != [] ==> r[0] >= cutoff
    decreases |w|
  {
    if w != [] && w[0] < cutoff then Pruned(w[1..], cutoff) else w
  }

  predicate Nondecreasing(w: seq<real>) {
    forall i, j :: 0 <= i < j < |w| ==> w[i] <= w[j]
  }

  /** With non-decreasing times, every entry left after pruning lies within the window. */
  lemma PrunedWithinWindow(w: seq<real>, cutoff: real)
    requires Nondecreasing(w)
    ensures forall i :: 0 <= i < |Pruned(w, cutoff)| ==> Pruned(w, cutoff)[i] >= cutoff
  {
    var r := Pruned(w, cutoff);
    forall i | 0 <= i < |r| ensures r[i] >= cutoff {
      assert r[i] == w[|w| - |r| + i] && r[0] == w[|w| - |r|];
    }
  }

  /** Pruning twice at the same cutoff prunes nothing more. */
  lemma PrunedIdempotent(w: seq<real>, cutoff: real)
    ensures Pruned(Pruned(w, cutoff), cutoff) == Pruned(w, cutoff)
  {
  }

  // ---------------------------------------------------------------------------
  // Counters
  // ---------------------------------------------------------------------------

  /** `record_success(bytes)` at time `now`, pruning with the window length `windowSeconds`. */
  function AfterSuccess(s: TrackerState, bytes: int, now: real, windowSeconds: real): TrackerState {
    s.(completed := s.completed + 1, bytesDownloaded := s.bytesDownloaded + bytes,
       recent := Pruned(s.recent + [now], now - windowSeconds))
  }

  function AfterFailure(s: TrackerState): TrackerState {
    s.(failed := s.failed + 1)
  }

  /** `reset(total)` at time `now`: counters and window cleared, the total replaced only when given. */
  function AfterReset(s: TrackerState, totalItems: Option<int>, now: real): TrackerState {
    TrackerState(totalItems.GetOr(s.total), 0, 0, 0, [], now)
  }

  // ---------------------------------------------------------------------------
  // Derived figures
  // ---------------------------------------------------------------------------

  function Pending(s: TrackerState): int {
    s.total - s.completed - s.failed
  }

  /** `downloads_per_minute`, from the (already pruned) window. */
  function DownloadsPerMinute(w: seq<real>, startTime: real): real {
    if w == [] then 0.0
    else
      var span := w[|w| - 1] - w[0];
      if span > 0.0 then ((|w| as real) / span) * 60.0
      else if |w| == 1 then
        var sinceStart := w[|w| - 1] - startTime;
        if sinceStart > 0.0 then 60.0 / sinceStart else 0.0
      else 0.0
  }

  /** `eta_seconds`: `None` unless both the speed and the pending count are positive. */
  function EtaSeconds(pending: int, speed: real): Option<real> {
    if speed > 0.0 && pending > 0 then Some(((pending as real) / speed) * 60.0) else None
  }

  function SuccessRate(completed: nat, failed: nat): real {
    if completed + failed > 0 then ((completed as real) / ((completed + failed) as real)) * 100.0 else 0.0
  }

  datatype Stats = Stats(
    completed: int,
    failed: int,
    pending: int,
    total: int,
    bytesDownloaded: int,
    downloadsPerMinute: real,
    etaSeconds: Option<real>,
    successRate: real,
    elapsedSeconds: real)

  /** The dictionary of `get_stats()`, computed from a state whose window is already pruned, at time `now`. */
  function StatsOf(s: TrackerState, now: real): Stats {
    var speed := DownloadsPerMinute(s.recent, s.startTime);
    Stats(s.completed, s.failed, Pending(s), s.total, s.bytesDownloaded, speed,
          EtaSeconds(Pending(s), speed), SuccessRate(s.completed, s.failed), now - s.startTime)
  }

  // ---------------------------------------------------------------------------
  // Text forms
  // ---------------------------------------------------------------------------

  /**
   * `n / d` to one decimal, rounded as Python's `:.1f` rounds an exactly
   * representable value: to the nearest tenth, ties to an even last digit.
   * The result is the number of tenths.
   */
  function RoundTenths(n: nat, d: nat): (t: nat)
    requires d >= 1
  {
    var q := (10 * n) / d;
    var r := (10 * n) % d;
    if 2 * r > d || (2 * r == d && q % 2 == 1) then q + 1 else q
  }

  /** The rounded value is within half a tenth of `n / d`: `|10 n - t d| <= d / 2`. */
  lemma RoundTenthsError(n: nat, d: nat)
    requires d >= 1
    ensures var t := RoundTenths(n, d);
      2 * (t * d) <= 2 * (10 * n) + d && 2 * (10 * n) <= 2 * (t * d) + d
  {
    var q := (10 * n) / d;
    var r := (10 * n) % d;
    assert 10 * n == q * d + r;
    assert (q + 1) * d == q * d + d;
  }

  /** A number of tenths as text: `12.3`. */
  function TenthsText(t: nat): string {
    NatToString(t / 10) + "." + NatToString(t % 10)
  }

  /** `_format_bytes(b)`; only the byte count below 1024 may be negative. */
  function FormatBytes(b: int): (r: string)
  {
    if b < 1024 then IntToString(b) + " B"
    else if b < 1024 * 1024 then TenthsText(RoundTenths(b, 1024)) + " KB"
    else TenthsText(RoundTenths(b, 1024 * 1024)) + " MB"
  }

  /** `_format_eta(seconds)`. */
  function FormatEta(seconds: real): string {
    if seconds < 0.0 then "--"
    else
      var (minutes, secs) := EtaParts(seconds);
      if minutes > 0 then NatToString(minutes) + "m " + NatToString(secs) + "s"
      else NatToString(secs) + "s"
  }

  /** Minutes `seconds // 60` and seconds `seconds % 60`, both truncated to integers. */
  function EtaParts(seconds: real): (p: (nat, nat))
    requires seconds >= 0.0
    ensures (p.0 * 60 + p.1) as real <= seconds < (p.0 * 60 + p.1 + 1) as real
    ensures p.1 < 60
  {
    var m := (seconds / 60.0).Floor;
    assert m as real <= seconds / 60.0 < m as real + 1.0;
    var rest := seconds - 60.0 * (m as real);
    var s := rest.Floor;
    (m, s)
  }

  // ---------------------------------------------------------------------------
  // Properties
  // ---------------------------------------------------------------------------

  /** A new tracker reports nothing done and everything pending. */
  lemma InitialStats(totalItems: int, now: real)
    ensures var st := StatsOf(InitialState(totalItems, now), now);
      st.completed == 0 && st.failed == 0 && st.bytesDownloaded == 0 && st.pending == totalItems
      && st.downloadsPerMinute == 0.0 && st.etaSeconds.None? && st.successRate == 0.0
  {
  }

  /** `record_success` adds one completion and its bytes; `record_failure` one failure; nothing else but the window changes. */
  lemma RecordEffects(s: TrackerState, bytes: int, now: real, windowSeconds: real)
    ensures var s' := AfterSuccess(s, bytes, now, windowSeconds);
      s'.completed == s.completed + 1 && s'.bytesDownloaded == s.bytesDownloaded + bytes
      && s'.failed == s.failed && s'.total == s.total && s'.startTime == s.startTime
      && Pending(s') == Pending(s) - 1
    ensures var s' := AfterFailure(s);
      s'.failed == s.failed + 1 && s'.(failed := s.failed) == s && Pending(s') == Pending(s) - 1
  {
  }

  /** The times of `w` are in order and lie between `lo` and `hi`. */
  predicate InWindow(w: seq<real>, lo: real, hi: real) {
    Nondecreasing(w) && forall i :: 0 <= i < |w| ==> lo <= w[i] <= hi
  }

  /** With the clock never going back, the window stays in time order and within the window length after a success. */
  lemma SuccessKeepsWindow(s: TrackerState, bytes: int, now: real, windowSeconds: real)
    requires Nondecreasing(s.recent)
    requires s.recent != [] ==> s.recent[|s.recent| - 1] <= now
    ensures InWindow(AfterSuccess(s, bytes, now, windowSeconds).recent, now - windowSeconds, now)
  {
    var cutoff := now - windowSeconds;
    var w := Pruned(s.recent + [now], cutoff);
    assert AfterSuccess(s, bytes, now, windowSeconds).recent == w;
    AppendPrunedInWindow(s.recent, now, cutoff);
    assert InWindow(w, cutoff, now);
  }

  /** Appending a time no earlier than the last one and pruning leaves a window between the cutoff and that time. */
  lemma AppendPrunedInWindow(r: seq<real>, x: real, cutoff: real)
    requires Nondecreasing(r) && (r != [] ==> r[|r| - 1] <= x)
    ensures InWindow(Pruned(r + [x], cutoff), cutoff, x)
  {
    AppendKeepsOrder(r, x);
    PrunedKeepsWindow(r + [x], cutoff, x);
  }

  /** Pruning an ordered window bounded by `x` leaves it ordered, bounded by `x`, and at or after the cutoff. */
  lemma PrunedKeepsWindow(v: seq<real>, cutoff: real, x: real)
    requires Nondecreasing(v) && forall i :: 0 <= i < |v| ==> v[i] <= x
    ensures InWindow(Pruned(v, cutoff), cutoff, x)
  {
    var w := Pruned(v, cutoff);
    var k := |v| - |w|;
    SuffixKeepsOrder(v, k, x);
    PrunedWithinWindow(v, cutoff);
  }

  lemma AppendKeepsOrder(w: seq<real>, x: real)
    requires Nondecreasing(w)
    requires w != [] ==> w[|w| - 1] <= x
    ensures Nondecreasing(w + [x]) && forall i :: 0 <= i < |w| + 1 ==> (w + [x])[i] <= x
  {
    var v := w + [x];
    forall i | 0 <= i < |v| ensures v[i] <= x {
      if i < |w| {
        assert v[i] == w[i] <= w[|w| - 1];
      }
    }
  }

  lemma SuffixKeepsOrder(v: seq<real>, k: nat, x: real)
    requires Nondecreasing(v) && k <= |v|
    requires forall i :: 0 <= i < |v| ==> v[i] <= x
    ensures Nondecreasing(v[k..]) && forall i :: 0 <= i < |v| - k ==> v[k..][i] <= x
  {
    forall i, j | 0 <= i < j < |v| - k ensures v[k..][i] <= v[k..][j] {
      assert v[k..][i] == v[k + i] && v[k..][j] == v[k + j];
    }
    forall i | 0 <= i < |v| - k ensures v[k..][i] <= x {
      assert v[k..][i] == v[k + i];
    }
  }

  /** The success rate is a percentage, and it is exactly the share of completions among processed items. */
  lemma SuccessRateBounds(completed: nat, failed: nat)
    ensures 0.0 <= SuccessRate(completed, failed) <= 100.0
    ensures completed + failed > 0 ==>
      SuccessRate(completed, failed) * ((completed + failed) as real) == 100.0 * (completed as real)
    ensures completed + failed == 0 ==> SuccessRate(completed, failed) == 0.0
  {
    if completed + failed > 0 {
      var p := (completed + failed) as real;
      var c := completed as real;
      assert c / p <= 1.0;
      assert (c / p) * p == c;
    }
  }

  /** The ETA exists exactly when the speed and pending count are positive, and then it is positive and is the time the pending items take at that speed. */
  lemma EtaMeaning(pending: int, speed: real)
    ensures EtaSeconds(pending, speed).Some? <==> speed > 0.0 && pending > 0
    ensures EtaSeconds(pending, speed).Some? ==>
      var e := EtaSeconds(pending, speed).value;
      e > 0.0 && (e / 60.0) * speed == pending as real
  {
    if speed > 0.0 && pending > 0 {
      var p := pending as real;
      var e := (p / speed) * 60.0;
      assert e / 60.0 == p / speed;
      assert (p / speed) * speed == p;
    }
  }

  /** `reset` zeroes the counts and bytes, empties the window, and keeps the total unless a new one is given. */
  lemma ResetEffect(s: TrackerState, totalItems: Option<int>, now: real)
    ensures var s' := AfterReset(s, totalItems, now);
      s'.completed == 0 && s'.failed == 0 && s'.bytesDownloaded == 0 && s'.recent == []
      && s'.total == (if totalItems.Some? then totalItems.value else s.total)
      && Pending(s') == s'.total
  {
  }

  /** The byte text picks its unit by size: bytes below 1024, KB below 1024 * 1024, MB above. */
  lemma FormatBytesUnit(b: int)
    ensures b < 1024 ==> FormatBytes(b) == IntToString(b) + " B"
    ensures 1024 <= b < 1024 * 1024 ==> EndsWith(FormatBytes(b), " KB")
    ensures b >= 1024 * 1024 ==> EndsWith(FormatBytes(b), " MB")
  {
  }

  predicate EndsWith(s: string, suffix: string) {
    |suffix| <= |s| && s[|s| - |suffix|..] == suffix
  }

  /** Concrete values: 1536 bytes read "1.5 KB", 5 MiB "5.0 MB", a tie rounds to even. */
  lemma FormatBytesExamples()
    ensures FormatBytes(500) == "500 B"
    ensures RoundTenths(1536, 1024) == 15
    ensures RoundTenths(5 * 1024 * 1024, 1024 * 1024) == 50
    ensures RoundTenths(1, 4) == 2 && RoundTenths(3, 4) == 8
  {
  }

  /** A non-negative ETA of 125.5 seconds reads "2m 5s"; under a minute only seconds are shown. */
  lemma FormatEtaExamples()
    ensures FormatEta(125.5) == "2m 5s"
    ensures FormatEta(59.9) == "59s"
    ensures FormatEta(-1.0) == "--"
  {
    assert (125.5 / 60.0).Floor == 2;
    assert (5.5).Floor == 5;
    assert NatToString(2) == "2" && NatToString(5) == "5";
    assert (59.9 / 60.0).Floor == 0;
    assert (59.9).Floor == 59;
    assert NatToString(59) == NatToString(5) + [DigitChar(9)];
  }

  // ---------------------------------------------------------------------------
  // The tracker object
  // ---------------------------------------------------------------------------

  /** The pop loop of `_prune_old_entries`: drops the front of the window while it is older than the cutoff. */
  method PruneWindow(w0: seq<real>, cutoff: real) returns (w: seq<real>)
    ensures w == Pruned(w0, cutoff)
  {
    w := w0;
    while w != [] && w[0] < cutoff
      invariant Pruned(w, cutoff) == Pruned(w0, cutoff)
      decreases |w|
    {
      w := w[1..];
    }
  }

  class StatisticsTracker {
    var total: int
    const windowSeconds: real
    var completed: nat
    var failed: nat
    var bytesDownloaded: int
    /** The times of the recent successes, oldest first. */
    var recentDownloads: seq<real>
    var startTime: real

    function State(): TrackerState
      reads this
    {
      TrackerState(total, completed, failed, bytesDownloaded, recentDownloads, startTime)
    }

    constructor (totalItems: int, windowSeconds: real, now: real)
      ensures State() == InitialState(totalItems, now)
      ensures this.windowSeconds == windowSeconds
    {
      total := totalItems;
      this.windowSeconds := windowSeconds;
      completed := 0;
      failed := 0;
      bytesDownloaded := 0;
      recentDownloads := [];
      startTime := now;
    }

    method RecordSuccess(bytes: int, now: real)
      modifies this
      ensures State() == AfterSuccess(old(State()), bytes, now, windowSeconds)
    {
      completed := completed + 1;
      bytesDownloaded := bytesDownloaded + bytes;
      recentDownloads := recentDownloads + [now];
      ghost var added := State();
      PruneOldEntries(now);
      assert State() == added.(recent := Pruned(added.recent, now - windowSeconds));
    }

    method RecordFailure()
      modifies this
      ensures State() == AfterFailure(old(State()))
    {
      failed := failed + 1;
    }

    /** `_prune_old_entries` at time `now`: pops the front of the window while it is older than the cutoff. */
    method PruneOldEntries(now: real)
      modifies this
      ensures State() == old(State()).(recent := Pruned(old(recentDownloads), now - windowSeconds))
    {
      recentDownloads := PruneWindow(recentDownloads, now - windowSeconds);
    }

    /** `get_stats()` at time `now`; it prunes the window first, which is its only change. */
    method GetStats(now: real) returns (stats: Stats)
      modifies this
      ensures State() == old(State()).(recent := Pruned(old(recentDownloads), now - windowSeconds))
      ensures stats == StatsOf(State(), now)
    {
      PruneOldEntries(now);
      stats := StatsOf(State(), now);
    }

    method Reset(totalItems: Option<int>, now: real)
      modifies this
      ensures State() == AfterReset(old(State()), totalItems, now)
    {
      if totalItems.Some? {
        total := totalItems.value;
      }
      completed := 0;
      failed := 0;
      bytesDownloaded := 0;
      recentDownloads := [];
      startTime := now;
    }
  }
}
