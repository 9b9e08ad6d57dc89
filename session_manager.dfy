/**
 * The session manager: the ACTIVE / EXPIRED / REFRESHING state of the
 * portal session, its cookie, the "active" event that workers wait on, and
 * the two callbacks it fires (on expiry and on a new cookie). A callback is
 * modelled by whether one is installed and by the log of calls it receives;
 * an exception raised inside a callback is caught by the manager and changes
 * nothing, so it is not modelled.
 */
module Sessions {
  import opened Strings

  datatype SessionState = Active | Expired | Refreshing

  /** One call of an installed callback. */
  datatype CallbackCall = ExpiredCalled | RefreshedCalled(cookie: string)

  datatype SessionData = SessionData(
    cookie: string,
    state: SessionState,
    activeEvent: bool,
    hasExpiredCallback: bool,
    hasRefreshedCallback: bool,
    calls: seq<CallbackCall>)

  const ExpiryUrlPatterns: seq<string> := ["login.aspx", "login.asp", "/login"]

  const ExpiryContentPatterns: seq<string> := [
    "enter mobile",
    "session has timed out",
    "session expired",
    "please login",
    "please log in",
    "authentication required"
  ]

  /** Each pattern lower-cased, as the detector compares them. */
  function LowerAll(ps: seq<string>): (r: seq<string>)
    ensures |r| == |ps| && forall i :: 0 <= i < |ps| ==> r[i] == Lower(ps[i])
  {
    seq(|ps|, i requires 0 <= i < |ps| => Lower(ps[i]))
  }

  /** `is_session_expired_response(url, content)`. */
  function IsExpiredResponse(url: string, content: string): (r: bool)
    ensures r <==> (exists i :: 0 <= i < |ExpiryUrlPatterns| && Contains(Lower(url), Lower(ExpiryUrlPatterns[i])))
                   || (exists i :: 0 <= i < |ExpiryContentPatterns|
                         && Contains(Lower(content), Lower(ExpiryContentPatterns[i])))
  {
    var us := LowerAll(ExpiryUrlPatterns);
    var cs := LowerAll(ExpiryContentPatterns);
    assert forall p :: p in us <==> exists i :: 0 <= i < |ExpiryUrlPatterns| && p == Lower(ExpiryUrlPatterns[i]);
    assert forall p :: p in cs <==> exists i :: 0 <= i < |ExpiryContentPatterns| && p == Lower(ExpiryContentPatterns[i]);
    ContainsAny(Lower(url), us) || ContainsAny(Lower(content), cs)
  }

  /** A new manager: the given cookie, ACTIVE, the event set, no callbacks installed. */
  function Init(cookie: string): SessionData {
    SessionData(cookie, Active, true, false, false, [])
  }

  /** `mark_expired()`: the first expiry clears the event and fires the expiry callback. */
  function MarkedExpired(d: SessionData): SessionData {
    if d.state != Expired then
      d.(state := Expired, activeEvent := false,
         calls := d.calls + (if d.hasExpiredCallback then [ExpiredCalled] else []))
    else d
  }

  /** `mark_refreshing()`: EXPIRED becomes REFRESHING; any other state is kept. */
  function MarkedRefreshing(d: SessionData): SessionData {
    if d.state == Expired then d.(state := Refreshing) else d
  }

  /** `update_cookie(c)`: from any state, the new cookie, ACTIVE, the event set, the refresh callback fired. */
  function CookieUpdated(d: SessionData, c: string): SessionData {
    d.(cookie := c, state := Active, activeEvent := true,
       calls := d.calls + (if d.hasRefreshedCallback then [RefreshedCalled(c)] else []))
  }

  /** `check_and_handle_response(url, content)`: the detection result and the state after it. */
  function CheckAndHandle(d: SessionData, url: string, content: string): (bool, SessionData) {
    if IsExpiredResponse(url, content) then (true, MarkedExpired(d)) else (false, d)
  }

  // ---------------------------------------------------------------------------
  // Properties
  // ---------------------------------------------------------------------------

  /** The event is set exactly when the session is ACTIVE. */
  predicate EventMatchesState(d: SessionData) {
    d.activeEvent <==> d.state == Active
  }

  /** The operations a caller can perform, for reasoning about sequences of them. */
  datatype Op =
    | DoMarkExpired
    | DoMarkRefreshing
    | DoUpdateCookie(cookie: string)
    | DoCheck(url: string, content: string)
    | SetExpiredCallback(installed: bool)
    | SetRefreshedCallback(installed: bool)

  function Apply(d: SessionData, op: Op): SessionData {
    match op
    case DoMarkExpired => MarkedExpired(d)
    case DoMarkRefreshing => MarkedRefreshing(d)
    case DoUpdateCookie(c) => CookieUpdated(d, c)
    case DoCheck(u, c) => CheckAndHandle(d, u, c).1
    case SetExpiredCallback(b) => d.(hasExpiredCallback := b)
    case SetRefreshedCallback(b) => d.(hasRefreshedCallback := b)
  }

  function Run(d: SessionData, ops: seq<Op>): SessionData
    decreases |ops|
  {
    if ops == [] then d else Run(Apply(d, ops[0]), ops[1..])
  }

  lemma ApplyKeepsEvent(d: SessionData, op: Op)
    requires EventMatchesState(d)
    ensures EventMatchesState(Apply(d, op))
  {
  }

  /** From a new manager, after any sequence of operations the event is set iff the state is ACTIVE. */
  lemma {:induction false} RunKeepsEvent(d: SessionData, ops: seq<Op>)
    requires EventMatchesState(d)
    ensures EventMatchesState(Run(d, ops))
    decreases |ops|
  {
    if ops != [] {
      ApplyKeepsEvent(d, ops[0]);
      RunKeepsEvent(Apply(d, ops[0]), ops[1..]);
    }
  }

  lemma InitKeepsEvent(cookie: string)
    ensures EventMatchesState(Init(cookie)) && Init(cookie).state == Active && Init(cookie).cookie == cookie
  {
  }

  /** A second `mark_expired()` changes nothing, so the expiry callback fires once for repeated calls. */
  lemma MarkExpiredIdempotent(d: SessionData)
    ensures MarkedExpired(MarkedExpired(d)) == MarkedExpired(d)
    ensures MarkedExpired(d).state == Expired
    ensures |MarkedExpired(d).calls| == |d.calls| + (if d.state != Expired && d.hasExpiredCallback then 1 else 0)
  {
  }

  /** Operations that cannot bring a session back to life or into REFRESHING. */
  predicate NoRevival(op: Op) {
    op.DoMarkExpired? || op.DoCheck? || op.SetExpiredCallback? || op.SetRefreshedCallback?
  }

  /** One such operation either changes no calls or expires the session with one expiry call. */
  lemma NoRevivalStep(d: SessionData, op: Op)
    requires NoRevival(op)
    ensures var e := Apply(d, op);
      e.cookie == d.cookie
      && ((e.calls == d.calls && (e.state == d.state || e.state == Expired))
          || (d.state != Expired && e.state == Expired && e.calls == d.calls + [ExpiredCalled]))
  {
  }

  /**
   * Without a new cookie or a refresh in between, the expiry callback fires at
   * most once, however many responses are detected as expired, and not at all
   * once the session is already EXPIRED.
   */
  lemma {:induction false} ExpiryCallbackAtMostOnce(d: SessionData, ops: seq<Op>)
    requires forall i :: 0 <= i < |ops| ==> NoRevival(ops[i])
    ensures var d' := Run(d, ops);
      d'.cookie == d.cookie
      && (d'.calls == d.calls || (d.state != Expired && d'.calls == d.calls + [ExpiredCalled]))
    decreases |ops|
  {
    if ops != [] {
      var e := Apply(d, ops[0]);
      NoRevivalStep(d, ops[0]);
      assert forall i :: 0 <= i < |ops[1..]| ==> NoRevival(ops[1..][i]) by {
        forall i | 0 <= i < |ops[1..]| ensures NoRevival(ops[1..][i]) {
          assert ops[1..][i] == ops[i + 1];
        }
      }
      ExpiryCallbackAtMostOnce(e, ops[1..]);
    }
  }

  /** A session that went into REFRESHING expires again: `mark_expired()` then fires the callback a second time. */
  lemma RefreshingExpiresAgain(cookie: string)
    ensures var d := Init(cookie).(hasExpiredCallback := true);
      Run(d, [DoMarkExpired, DoMarkRefreshing, DoMarkExpired]).calls == [ExpiredCalled, ExpiredCalled]
  {
    var d := Init(cookie).(hasExpiredCallback := true);
    var d1 := MarkedExpired(d);
    assert d1.calls == [ExpiredCalled];
    var d2 := MarkedRefreshing(d1);
    assert d2.state == Refreshing;
    assert Run(d, [DoMarkExpired, DoMarkRefreshing, DoMarkExpired]) == Run(d1, [DoMarkRefreshing, DoMarkExpired]);
    assert Run(d1, [DoMarkRefreshing, DoMarkExpired]) == Run(d2, [DoMarkExpired]);
  }

  /** `update_cookie(c)` always ends ACTIVE with cookie `c` and one refresh call when a callback is installed. */
  lemma UpdateCookieEffect(d: SessionData, c: string)
    ensures var d' := CookieUpdated(d, c);
      d'.state == Active && d'.activeEvent && d'.cookie == c
      && d'.calls == d.calls + (if d.hasRefreshedCallback then [RefreshedCalled(c)] else [])
  {
  }

  /** `mark_refreshing()` changes the state only from EXPIRED, and never the cookie, event or calls. */
  lemma MarkRefreshingEffect(d: SessionData)
    ensures var d' := MarkedRefreshing(d);
      (d.state == Expired ==> d'.state == Refreshing)
      && (d.state != Expired ==> d' == d)
      && d'.(state := d.state) == d
  {
  }

  /** `check_and_handle_response` reports the detection, and changes the state only when it detects expiry. */
  lemma CheckAndHandleEffect(d: SessionData, url: string, content: string)
    ensures var (r, d') := CheckAndHandle(d, url, content);
      r == IsExpiredResponse(url, content)
      && (r ==> d' == MarkedExpired(d) && d'.state == Expired)
      && (!r ==> d' == d)
  {
  }

  /** A redirect to the login page is detected by its URL, whatever case it is written in. */
  lemma LoginRedirectDetected(content: string)
    ensures IsExpiredResponse("/Login.aspx", content)
  {
    assert Lower("/Login.aspx") == "/login.aspx";
    assert Lower(ExpiryUrlPatterns[0]) == "login.aspx";
    assert OccursAt("/login.aspx", "login.aspx", 1);
  }

  // ---------------------------------------------------------------------------
  // The manager object
  // ---------------------------------------------------------------------------

  class SessionManager {
    var cookie: string
    var state: SessionState
    var activeEvent: bool
    var hasExpiredCallback: bool
    var hasRefreshedCallback: bool
    /** The calls the installed callbacks have received, oldest first. */
    var calls: seq<CallbackCall>

    function Data(): SessionData
      reads this
    {
      SessionData(cookie, state, activeEvent, hasExpiredCallback, hasRefreshedCallback, calls)
    }

    ghost predicate Valid()
      reads this
    {
      EventMatchesState(Data())
    }

    constructor (cookie: string)
      ensures Valid()
      ensures Data() == Init(cookie)
    {
      this.cookie := cookie;
      state := Active;
      activeEvent := true;
      hasExpiredCallback := false;
      hasRefreshedCallback := false;
      calls := [];
    }

    /** The `on_session_expired` setter: installs (`true`) or removes (`false`) the expiry callback. */
    method SetOnSessionExpired(installed: bool)
      requires Valid()
      modifies this
      ensures Valid()
      ensures Data() == Apply(old(Data()), SetExpiredCallback(installed))
    {
      hasExpiredCallback := installed;
    }

    method SetOnSessionRefreshed(installed: bool)
      requires Valid()
      modifies this
      ensures Valid()
      ensures Data() == Apply(old(Data()), SetRefreshedCallback(installed))
    {
      hasRefreshedCallback := installed;
    }

    method MarkExpired()
      requires Valid()
      modifies this
      ensures Valid()
      ensures Data() == MarkedExpired(old(Data()))
    {
      var fire := false;
      if state != Expired {
        state := Expired;
        activeEvent := false;
        fire := hasExpiredCallback;
      }
      if fire {
        calls := calls + [ExpiredCalled];
      }
    }

    method MarkRefreshing()
      requires Valid()
      modifies this
      ensures Valid()
      ensures Data() == MarkedRefreshing(old(Data()))
    {
      if state == Expired {
        state := Refreshing;
      }
    }

    method UpdateCookie(newCookie: string)
      requires Valid()
      modifies this
      ensures Valid()
      ensures Data() == CookieUpdated(old(Data()), newCookie)
    {
      cookie := newCookie;
      state := Active;
      activeEvent := true;
      if hasRefreshedCallback {
        calls := calls + [RefreshedCalled(newCookie)];
      }
    }

    method CheckAndHandleResponse(url: string, content: string) returns (expired: bool)
      requires Valid()
      modifies this
      ensures Valid()
      ensures (expired, Data()) == CheckAndHandle(old(Data()), url, content)
    {
      if IsExpiredResponse(url, content) {
        MarkExpired();
        return true;
      }
      return false;
    }
  }
}
