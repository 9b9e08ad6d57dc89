/**
 * The update check: normalising version tags, deciding whether the latest
 * release is newer, and the record `check` returns. The release lookup over
 * HTTP is a parameter (its outcome). Version ordering follows the release
 * segment of PEP 440 (dotted non-negative integers, trailing zeros
 * insignificant); other strings fall back to plain string comparison.
 */
module UpdateChecker {
  import opened Wrappers
  import opened Strings

  const CurrentVersion: string := "1.1.0"
  const ReleasesPageUrl: string := "https://github.com/rbansal42/jamabandi-scraper/releases/latest"

  // ---------------------------------------------------------------------------
  // Normalisation
  // ---------------------------------------------------------------------------

  /** `_normalize_version`: strip, then drop one leading `v`. */
  function NormalizeVersion(ver: string): (r: string)
    ensures var s := Strip(ver); s == (if StartsWith(s, "v") then "v" + r else r)
  {
    var s := Strip(ver);
    if StartsWith(s, "v") then s[1..] else s
  }

  /** Only one `v` is removed: `vv1` becomes `v1`. */
  lemma NormalizeOnce()
    ensures NormalizeVersion("vv1") == "v1"
  {
    var s := "vv1";
    NoSpaceStrip(s);
    assert s[..1] == "v";
  }

  /** Surrounding whitespace and the prefix go: ` v2.0.0 ` becomes `2.0.0`, and `1.2.3` is kept. */
  lemma NormalizeExamples()
    ensures NormalizeVersion(" v2.0.0 ") == "2.0.0"
    ensures NormalizeVersion("1.2.3") == "1.2.3"
  {
    var a := " v2.0.0 ";
    var core := "v2.0.0";
    assert StripStart(a) == StripStart(a[1..]);
    assert a[1..] == core + " ";
    NoSpaceStrip(core);
    StripOfPadded(core);
    assert core[..1] == "v" && core[1..] == "2.0.0";
    var b := "1.2.3";
    NoSpaceStrip(b);
  }

  lemma StripOfPadded(core: string)
    requires core != [] && !IsSpace(core[0]) && !IsSpace(core[|core| - 1])
    ensures StripStart(core + " ") == core + " " && StripEnd(core + " ") == core
  {
    var t := core + " ";
    assert t[..|t| - 1] == core;
    assert StripEnd(core) == core;
  }

  // ---------------------------------------------------------------------------
  // Release numbers
  // ---------------------------------------------------------------------------

  predicate AllDigits(s: string) {
    forall i :: 0 <= i < |s| ==> IsDigit(s[i])
  }

  /** Python's `int(s)` on a text of decimal digits. */
  function DigitsValue(s: string): nat
    requires AllDigits(s)
  {
    if s == [] then 0 else DigitsValue(s[..|s| - 1]) * 10 + (s[|s| - 1] as int - '0' as int)
  }

  /** Reading back the decimal text of `n` gives `n`. */
  lemma {:induction false} DigitsValueOfString(n: nat)
    ensures AllDigits(NatToString(n)) && DigitsValue(NatToString(n)) == n
    decreases n
  {
    var s := NatToString(n);
    if n >= 10 {
      DigitsValueOfString(n / 10);
      assert s[..|s| - 1] == NatToString(n / 10);
    }
  }

  /** The integer value of each part, or `None` when a part is empty or not all digits. */
  function ParseParts(parts: seq<string>): (r: Option<seq<nat>>)
    ensures r.Some? ==> |r.value| == |parts|
  {
    if parts == [] then Some([])
    else if parts[0] == [] || !AllDigits(parts[0]) then None
    else match ParseParts(parts[1..])
      case None => None
      case Some(rest) => Some([DigitsValue(parts[0])] + rest)
  }

  /** The parts parse exactly when each is a non-empty run of digits, and then to their values. */
  lemma {:induction false} ParsePartsMeaning(parts: seq<string>)
    ensures ParseParts(parts).Some? <==> forall i :: 0 <= i < |parts| ==> parts[i] != [] && AllDigits(parts[i])
    ensures ParseParts(parts).Some? ==>
              forall i :: 0 <= i < |parts| ==> AllDigits(parts[i]) && ParseParts(parts).value[i] == DigitsValue(parts[i])
  {
    if parts != [] {
      ParsePartsMeaning(parts[1..]);
      assert forall i :: 1 <= i < |parts| ==> parts[i] == parts[1..][i - 1];
    }
  }

  /** A dotted release such as `1.10.0`: its integer components, or `None` when a part is empty or not all digits. */
  function ParseRelease(v: string): (r: Option<seq<nat>>)
    ensures r.Some? ==> |r.value| == |Split(v, '.')|
  {
    ParseParts(Split(v, '.'))
  }

  function Head0(a: seq<nat>): nat {
    if a == [] then 0 else a[0]
  }

  function Tail(a: seq<nat>): seq<nat> {
    if a == [] then [] else a[1..]
  }

  /** The release order: component by component, a missing component counting as zero. */
  predicate ReleaseLess(a: seq<nat>, b: seq<nat>)
    decreases |a| + |b|
  {
    if a == [] && b == [] then false
    else if Head0(a) != Head0(b) then Head0(a) < Head0(b)
    else ReleaseLess(Tail(a), Tail(b))
  }

  /** No release is older than itself. */
  lemma {:induction false} ReleaseLessIrreflexive(a: seq<nat>)
    ensures !ReleaseLess(a, a)
    decreases |a|
  {
    if a != [] {
      ReleaseLessIrreflexive(a[1..]);
    }
  }

  /** Of two releases, at most one is older than the other. */
  lemma {:induction false} ReleaseLessAsymmetric(a: seq<nat>, b: seq<nat>)
    ensures !(ReleaseLess(a, b) && ReleaseLess(b, a))
    decreases |a| + |b|
  {
    if !(a == [] && b == []) && Head0(a) == Head0(b) {
      ReleaseLessAsymmetric(Tail(a), Tail(b));
    }
  }

  /** Trailing zero components do not matter: `1.0` and `1.0.0` are the same release. */
  lemma {:induction false} TrailingZero(a: seq<nat>)
    ensures !ReleaseLess(a, a + [0]) && !ReleaseLess(a + [0], a)
    decreases |a|
  {
    if a == [] {
      assert Tail([0]) == [];
    } else {
      assert Tail(a + [0]) == Tail(a) + [0];
      TrailingZero(Tail(a));
    }
  }

  /** `_is_newer`: the release order for two dotted releases, otherwise the string fallback. */
  function IsNewer(latest: string, current: string): bool {
    match (ParseRelease(latest), ParseRelease(current))
    case (Some(l), Some(c)) => ReleaseLess(c, l)
    case _ => latest != current && LexLess(current, latest)
  }

  lemma {:induction false} LexLessAsymmetric(a: string, b: string)
    ensures !(LexLess(a, b) && LexLess(b, a))
    decreases |a|
  {
    if a != [] && b != [] && a[0] == b[0] {
      LexLessAsymmetric(a[1..], b[1..]);
    }
  }

  /** A version is never newer than itself, and of two versions at most one is newer. */
  lemma IsNewerStrict(a: string, b: string)
    ensures !IsNewer(a, a)
    ensures !(IsNewer(a, b) && IsNewer(b, a))
  {
    if ParseRelease(a).Some? {
      ReleaseLessIrreflexive(ParseRelease(a).value);
    }
    match (ParseRelease(a), ParseRelease(b))
    case (Some(x), Some(y)) => ReleaseLessAsymmetric(x, y);
    case _ => LexLessAsymmetric(a, b);
  }

  /** Components compare as numbers, not as text: `1.10.0` is newer than `1.9.0`. */
  lemma NumericNotTextual()
    ensures IsNewer("1.10.0", "1.9.0")
  {
    ParseOneTenZero();
    ParseOneNineZero();
    assert ReleaseLess([1, 9, 0], [1, 10, 0]) by {
      assert Tail([1, 9, 0]) == [9, 0] && Tail([1, 10, 0]) == [10, 0];
    }
  }

  lemma ParseOneTenZero()
    ensures ParseRelease("1.10.0") == Some([1, 10, 0])
  {
    assert "1.10.0" == "1" + ['.'] + "10" + ['.'] + "0";
    SplitVersion3("1", "10", "0");
    assert DigitsValue("1") == 1 && DigitsValue("0") == 0;
    assert DigitsValue("10") == 10 by {
      assert "10"[..1] == "1";
    }
    ParseThree("1.10.0", "1", "10", "0");
  }

  lemma ParseOneNineZero()
    ensures ParseRelease("1.9.0") == Some([1, 9, 0])
  {
    assert "1.9.0" == "1" + ['.'] + "9" + ['.'] + "0";
    SplitVersion3("1", "9", "0");
    assert DigitsValue("1") == 1 && DigitsValue("9") == 9 && DigitsValue("0") == 0;
    ParseThree("1.9.0", "1", "9", "0");
  }

  /** A version of three numeric parts parses to their values. */
  lemma ParseThree(v: string, a: string, b: string, c: string)
    requires Split(v, '.') == [a, b, c]
    requires a != [] && b != [] && c != [] && AllDigits(a) && AllDigits(b) && AllDigits(c)
    ensures ParseRelease(v) == Some([DigitsValue(a), DigitsValue(b), DigitsValue(c)])
  {
    var x, y, z := DigitsValue(a), DigitsValue(b), DigitsValue(c);
    assert ParseParts([]) == Some([]);
    ParsePartsCons(c, []);
    assert [c] + [] == [c] && [z] + [] == [z];
    ParsePartsCons(b, [c]);
    assert [b] + [c] == [b, c] && [y] + [z] == [y, z];
    ParsePartsCons(a, [b, c]);
    assert [a] + [b, c] == [a, b, c] && [x] + [y, z] == [x, y, z];
  }

  lemma ParsePartsCons(p: string, rest: seq<string>)
    requires p != [] && AllDigits(p) && ParseParts(rest).Some?
    ensures ParseParts([p] + rest) == Some([DigitsValue(p)] + ParseParts(rest).value)
  {
    assert ([p] + rest)[0] == p && ([p] + rest)[1..] == rest;
  }

  lemma SplitVersion3(a: string, b: string, c: string)
    requires '.' !in a && '.' !in b && '.' !in c
    ensures Split(a + ['.'] + b + ['.'] + c, '.') == [a, b, c]
  {
    assert a + ['.'] + b + ['.'] + c == a + ['.'] + (b + ['.'] + c);
    SplitCons(a, b + ['.'] + c, '.');
    SplitCons(b, c, '.');
    SplitNoSep(c, '.');
  }

  // ---------------------------------------------------------------------------
  // The check
  // ---------------------------------------------------------------------------

  /** `UpdateInfo`. */
  datatype UpdateInfo = UpdateInfo(
    currentVersion: string,
    latestVersion: string,
    releaseUrl: string,
    releaseNotes: string,
    isUpdateAvailable: bool)

  /** The release lookup: failed (any exception), or the fields of the latest release, absent ones as `None`. */
  datatype Fetch =
    | FetchFailed
    | Fetched(tagName: Option<string>, body: Option<string>, htmlUrl: Option<string>)

  /** `check`: the record built from the release, or the no-update record on any error. */
  function Check(current: string, fetch: Fetch): UpdateInfo {
    match fetch
    case FetchFailed => UpdateInfo(current, current, ReleasesPageUrl, "", false)
    case Fetched(tag, body, url) =>
      var latest := NormalizeVersion(tag.GetOr(""));
      var cur := NormalizeVersion(current);
      UpdateInfo(cur, latest, url.GetOr(ReleasesPageUrl), body.GetOr(""), IsNewer(latest, cur))
  }

  /**
   * On success both versions are normalised and an update is reported exactly
   * when the release is newer (so never for the installed version itself); on
   * error the raw current version is reported twice and no update is.
   */
  lemma CheckMeaning(current: string, fetch: Fetch)
    ensures var info := Check(current, fetch);
      && (fetch.Fetched? ==>
            info.latestVersion == NormalizeVersion(fetch.tagName.GetOr(""))
            && info.currentVersion == NormalizeVersion(current)
            && (info.isUpdateAvailable <==> IsNewer(info.latestVersion, info.currentVersion))
            && (info.latestVersion == info.currentVersion ==> !info.isUpdateAvailable))
      && (fetch.FetchFailed? ==>
            info.currentVersion == current && info.latestVersion == current
            && !info.isUpdateAvailable && info.releaseUrl == ReleasesPageUrl && info.releaseNotes == "")
  {
    if fetch.Fetched? {
      IsNewerStrict(NormalizeVersion(fetch.tagName.GetOr("")), NormalizeVersion(current));
    }
  }
}
