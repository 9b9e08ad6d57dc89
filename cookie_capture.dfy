/**
 * Cookie handling: pulling one cookie's value out of a `Cookie`-style header
 * (the `name=value; name=value` form of section 4.2.1 of RFC 6265, read
 * loosely so that attributes such as `HttpOnly` are skipped), validating a
 * pasted cookie, the manual capture that stores it and notifies a callback,
 * and the choice of capture method. Whether the webview library is installed
 * is a parameter.
 */
module CookieCapture {
  import opened Wrappers
  import opened Strings

  // ---------------------------------------------------------------------------
  // Header parsing
  // ---------------------------------------------------------------------------

  /**
   * One `;`-separated part, stripped and split at its first `=` into a
   * stripped name and a stripped value; `None` for a part without `=`, such as
   * the attribute `HttpOnly`.
   */
  function ParsePart(part: string): Option<(string, string)> {
    var p := Strip(part);
    match FindChar(p, '=')
    case None => None
    case Some(k) => Some((Strip(p[..k]), Strip(p[k + 1..])))
  }

  /**
   * A part is skipped exactly when its stripped text has no `=`; otherwise it
   * reads as the stripped text before its first `=` and the stripped text after it.
   */
  lemma ParsePartMeaning(part: string)
    ensures ParsePart(part).None? <==> '=' !in Strip(part)
    ensures ParsePart(part).Some? ==>
              exists k :: 0 <= k < |Strip(part)| && Strip(part)[k] == '=' && '=' !in Strip(part)[..k]
                          && ParsePart(part).value == (Strip(Strip(part)[..k]), Strip(Strip(part)[k + 1..]))
  {
    var p := Strip(part);
    FindCharIn(p, '=');
    match FindChar(p, '=')
    case None =>
    case Some(k) =>
      assert '=' !in p[..k];
  }

  /** A parsed part names cookie `name`. */
  predicate Names(parsed: Option<(string, string)>, name: string) {
    parsed.Some? && parsed.value.0 == name
  }

  /** The value of the first part that names cookie `name`. */
  function FindCookie(parts: seq<string>, name: string): Option<string> {
    if parts == [] then None
    else
      var parsed := ParsePart(parts[0]);
      if Names(parsed, name) then Some(parsed.value.1) else FindCookie(parts[1..], name)
  }

  /**
   * The cookie is missing exactly when no part names it; otherwise its value
   * is that of the first part that names it.
   */
  lemma {:induction false} FindCookieMeaning(parts: seq<string>, name: string)
    ensures FindCookie(parts, name).None? <==> forall i :: 0 <= i < |parts| ==> !Names(ParsePart(parts[i]), name)
    ensures FindCookie(parts, name).Some? ==>
              exists i :: 0 <= i < |parts| && ParsePart(parts[i]) == Some((name, FindCookie(parts, name).value))
                          && forall j :: 0 <= j < i ==> !Names(ParsePart(parts[j]), name)
  {
    if parts == [] {
    } else if Names(ParsePart(parts[0]), name) {
      assert ParsePart(parts[0]) == Some((name, FindCookie(parts, name).value));
    } else {
      var rest := parts[1..];
      FindCookieMeaning(rest, name);
      assert FindCookie(parts, name) == FindCookie(rest, name);
      if FindCookie(rest, name).Some? {
        var i :| 0 <= i < |rest| && ParsePart(rest[i]) == Some((name, FindCookie(rest, name).value))
                 && forall j :: 0 <= j < i ==> !Names(ParsePart(rest[j]), name);
        assert parts[i + 1] == rest[i];
        forall j | 0 <= j < i + 1
          ensures !Names(ParsePart(parts[j]), name)
        {
          if j > 0 {
            assert parts[j] == rest[j - 1];
          }
        }
      } else {
        forall j | 0 <= j < |parts|
          ensures !Names(ParsePart(parts[j]), name)
        {
          if j > 0 {
            assert parts[j] == rest[j - 1];
          }
        }
      }
    }
  }

  /** `extract_cookie_from_header(header, name)`: `None` for a missing or empty header. */
  function ExtractCookie(header: Option<string>, name: string): Option<string> {
    if header.None? || header.value == [] then None else FindCookie(Split(header.value, ';'), name)
  }

  /** The search loop of `extract_cookie_from_header`, returning at the first matching part. */
  method FindCookieIn(parts: seq<string>, cookieName: string) returns (r: Option<string>)
    ensures r == FindCookie(parts, cookieName)
  {
    var i := 0;
    while i < |parts|
      invariant 0 <= i <= |parts|
      invariant FindCookie(parts, cookieName) == FindCookie(parts[i..], cookieName)
    {
      assert parts[i..][0] == parts[i] && parts[i..][1..] == parts[i + 1..];
      var parsed := ParsePart(parts[i]);
      if parsed.Some? && parsed.value.0 == cookieName {
        return Some(parsed.value.1);
      }
      i := i + 1;
    }
    return None;
  }

  /** `extract_cookie_from_header(header, cookie_name)`. */
  method ExtractCookieFromHeader(header: Option<string>, cookieName: string) returns (r: Option<string>)
    ensures r == ExtractCookie(header, cookieName)
  {
    if header.None? || header.value == [] {
      return None;
    }
    r := FindCookieIn(Split(header.value, ';'), cookieName);
  }

  /** A header that is absent or empty yields nothing; so does one in which no part names the cookie. */
  lemma ExtractCookieNone(header: Option<string>, name: string)
    ensures header.None? || header == Some("") ==> ExtractCookie(header, name).None?
    ensures header.Some? && header.value != [] ==>
      (ExtractCookie(header, name).None? <==>
         forall p :: p in Split(header.value, ';') ==> !Names(ParsePart(p), name))
  {
    if header.Some? && header.value != [] {
      FindCookieMeaning(Split(header.value, ';'), name);
    }
  }

  /** `id=abc` is read as the value `abc`, and a leading `HttpOnly` part is passed over. */
  lemma ExtractCookieExample()
    ensures FindCookie(["HttpOnly", "id=abc"], "id") == Some("abc")
  {
    HttpOnlySkipped();
    IdAbc();
    var parts := ["HttpOnly", "id=abc"];
    assert parts[1..] == ["id=abc"];
    assert parts[1..][1..] == [];
  }

  lemma HttpOnlySkipped()
    ensures ParsePart("HttpOnly") == None
  {
    var s := "HttpOnly";
    NoSpaceStrip(s);
    FindCharIn(s, '=');
    assert '=' !in s;
  }

  lemma IdAbc()
    ensures ParsePart("id=abc") == Some(("id", "abc"))
  {
    var s := "id=abc";
    NoSpaceStrip(s);
    assert s[1..][1..] == s[2..];
    assert FindChar(s, '=') == Some(2);
    assert s[..2] == "id" && s[3..] == "abc";
    NoSpaceStrip("id");
    NoSpaceStrip("abc");
  }

  // ---------------------------------------------------------------------------
  // Validation and capture
  // ---------------------------------------------------------------------------

  const MinCookieLength: nat := 10

  /** Characters that would allow header injection. */
  predicate Dangerous(c: char) {
    c == '\r' || c == '\n' || c == '\0'
  }

  /** `validate_cookie(c)`, its checks in order: non-empty, non-empty once stripped, long enough, no dangerous character. */
  function ValidateCookie(cookie: string): bool
  {
    if cookie == [] then false
    else
      var c := Strip(cookie);
      if c == [] then false
      else if |c| < MinCookieLength then false
      else if exists i :: 0 <= i < |c| && Dangerous(c[i]) then false
      else true
  }

  /** A cookie is valid exactly when its stripped text has at least 10 characters and none is `\r`, `\n` or `\0`. */
  lemma ValidateCookieMeaning(cookie: string)
    ensures ValidateCookie(cookie) <==>
              (|Strip(cookie)| >= MinCookieLength
               && forall i :: 0 <= i < |Strip(cookie)| ==> !Dangerous(Strip(cookie)[i]))
  {
    if cookie == [] {
      assert Strip(cookie) == [];
    }
  }

  /** A trailing newline is stripped before the check, so it is accepted. */
  lemma TrailingNewlineAccepted()
    ensures ValidateCookie("abcdefghij\n")
  {
    var a := "abcdefghij\n";
    var a0 := "abcdefghij";
    assert StripStart(a) == a;
    assert a[..|a| - 1] == a0;
    assert StripEnd(a) == StripEnd(a0);
    NoSpaceStrip(a0);
    assert StripStart(a0) == a0;
    assert Strip(a) == a0;
  }

  /** A newline inside the cookie is refused. */
  lemma InnerNewlineRefused()
    ensures !ValidateCookie("abcde\nfghij")
  {
    var b := "abcde\nfghij";
    assert StripStart(b) == b;
    assert StripEnd(b) == b;
    assert Strip(b)[5] == '\n';
  }

  datatype CaptureMethod = Manual | Webview

  /** The `method` property: webview only when it is preferred and installed. */
  function Method(preferWebview: bool, webviewAvailable: bool): (m: CaptureMethod)
    ensures m == Webview <==> preferWebview && webviewAvailable
  {
    if preferWebview && webviewAvailable then Webview else Manual
  }

  datatype CaptureState = CaptureState(captured: Option<string>, hasCallback: bool, notified: seq<string>)

  /** `capture_manual(c)`: the success flag and the state after it. */
  function CaptureManualSpec(s: CaptureState, cookie: string): (bool, CaptureState) {
    if !ValidateCookie(cookie) then (false, s)
    else
      var c := Strip(cookie);
      (true, s.(captured := Some(c), notified := s.notified + (if s.hasCallback then [c] else [])))
  }

  /**
   * A valid cookie is stored stripped and passed to the callback exactly once;
   * an invalid one changes nothing, so nothing is stored and the callback is not called.
   */
  lemma CaptureManualEffect(s: CaptureState, cookie: string)
    ensures var (ok, s') := CaptureManualSpec(s, cookie);
      ok == ValidateCookie(cookie)
      && (ok ==> s'.captured == Some(Strip(cookie))
                 && s'.notified == s.notified + (if s.hasCallback then [Strip(cookie)] else []))
      && (!ok ==> s' == s)
  {
  }

  /** The stored cookie is always a valid one: the capture keeps that invariant. */
  predicate StoredValid(s: CaptureState) {
    s.captured.Some? ==> ValidateCookie(s.captured.value)
  }

  lemma CaptureKeepsValid(s: CaptureState, cookie: string)
    requires StoredValid(s)
    ensures StoredValid(CaptureManualSpec(s, cookie).1)
  {
    StripIdempotent(cookie);
  }

  // ---------------------------------------------------------------------------
  // The capture object
  // ---------------------------------------------------------------------------

  class CookieCapture {
    const preferWebview: bool
    var capturedCookie: Option<string>
    /** Whether `on_cookie_captured` is set. */
    var hasCallback: bool
    /** The values passed to the callback, oldest first. */
    var notified: seq<string>

    function State(): CaptureState
      reads this
    {
      CaptureState(capturedCookie, hasCallback, notified)
    }

    constructor (preferWebview: bool)
      ensures this.preferWebview == preferWebview
      ensures State() == CaptureState(None, false, [])
    {
      this.preferWebview := preferWebview;
      capturedCookie := None;
      hasCallback := false;
      notified := [];
    }

    method SetCallback(installed: bool)
      modifies this
      ensures State() == old(State()).(hasCallback := installed)
    {
      hasCallback := installed;
    }

    method CaptureManual(cookie: string) returns (ok: bool)
      modifies this
      ensures (ok, State()) == CaptureManualSpec(old(State()), cookie)
    {
      if !ValidateCookie(cookie) {
        return false;
      }
      var c := Strip(cookie);
      capturedCookie := Some(c);
      if hasCallback {
        notified := notified + [c];
      } else {
        assert notified + [] == notified;
      }
      return true;
    }

    function GetMethod(webviewAvailable: bool): (m: CaptureMethod)
      ensures m == Method(preferWebview, webviewAvailable)
    {
      if preferWebview && webviewAvailable then Webview else Manual
    }
  }
}
