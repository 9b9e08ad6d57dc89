/**
 * The HTTP scraper for the Jamabandi public Nakal form: the ASP.NET token
 * handling, the login check, the five postbacks that select a village, the
 * ordered classification of the Nakal download reply, the per-worker loop
 * over a batch of khewat numbers, the contiguous batch split of the
 * concurrent mode and the worker clamp of the command line.
 *
 * The site is an oracle `server(k, request)`: the reply the site gives to
 * `request` while the scraper is working on khewat `k` (each khewat of a batch
 * sees at most one form load, one round of postbacks and one submission).
 * A reply is a response record, a timeout, or another raised exception.
 */
module HttpScraper {
  import opened Wrappers
  import opened Strings
  import opened Progress

  // ---------------------------------------------------------------------------
  // Site values
  // ---------------------------------------------------------------------------

  /**
   * A response: status code, final URL, body text, `Content-Type` header
   * ("" when absent) and the hidden `<input>` elements by name, each with its
   * `value` attribute when it has one.
   */
  datatype Response = Response(
    status: int,
    url: string,
    text: string,
    contentType: string,
    inputs: map<string, Option<string>>)

  datatype Reply = Responded(response: Response) | TimedOut | Raised(message: string)

  /** The extra form fields of a postback: the event target and the selections. */
  datatype Request =
    | FormPage
    | Postback(target: string, fields: map<string, string>)
    | NakalSubmit(fields: map<string, string>)

  type Server = (int, Request) -> Reply

  /** The district, tehsil, village and period selected on the form. */
  datatype FormConfig = FormConfig(district: string, tehsil: string, village: string, period: string)

  /** The three ASP.NET hidden-field tokens the scraper carries between requests (`None` before the first parse). */
  datatype Tokens = Tokens(viewstate: Option<string>, generator: Option<string>, eventValidation: Option<string>)

  const InitialTokens := Tokens(None, None, None)

  /** What the scraper object holds between calls: tokens, the form flag and the shared progress record. */
  datatype ScraperState = ScraperState(tokens: Tokens, formInitialized: bool, progress: ProgressData)

  // ---------------------------------------------------------------------------
  // Tokens and login
  // ---------------------------------------------------------------------------

  /**
   * `_parse_asp_tokens`: succeeds iff both the view-state and its generator are
   * present; then every token is replaced (a missing `value` reads as "", a
   * missing event validation as ""). On failure the old tokens stay.
   */
  function ParseTokens(t: Tokens, inputs: map<string, Option<string>>): (r: (bool, Tokens))
    ensures r.0 <==> "__VIEWSTATE" in inputs && "__VIEWSTATEGENERATOR" in inputs
    ensures !r.0 ==> r.1 == t
    ensures r.0 ==> r.1.viewstate.Some? && r.1.generator.Some? && r.1.eventValidation.Some?
    ensures r.0 ==> (r.1.viewstate.value == inputs["__VIEWSTATE"].GetOr("")
                     && r.1.generator.value == inputs["__VIEWSTATEGENERATOR"].GetOr(""))
    ensures r.0 ==> r.1.eventValidation.value
                    == if "__EVENTVALIDATION" in inputs then inputs["__EVENTVALIDATION"].GetOr("") else ""
  {
    if "__VIEWSTATE" in inputs && "__VIEWSTATEGENERATOR" in inputs then
      var ev := if "__EVENTVALIDATION" in inputs then inputs["__EVENTVALIDATION"].GetOr("") else "";
      (true, Tokens(Some(inputs["__VIEWSTATE"].GetOr("")), Some(inputs["__VIEWSTATEGENERATOR"].GetOr("")), Some(ev)))
    else (false, t)
  }

  /**
   * `_check_logged_in`: a page mentioning the login page or the mobile-number
   * prompt (in any case) is logged out; otherwise the page is logged in iff it
   * carries the district drop-down, matched case-sensitively.
   */
  function CheckLoggedIn(html: string): (r: bool)
    ensures r <==> !ContainsLower(html, "login.aspx") && !ContainsLower(html, "enter mobile")
                   && Contains(html, "ddldname")
  {
    if ContainsLower(html, "login.aspx") || ContainsLower(html, "enter mobile") then false
    else if Contains(html, "ddldname") then true
    else false
  }

  // ---------------------------------------------------------------------------
  // Form load and the five selection postbacks
  // ---------------------------------------------------------------------------

  datatype StageOutcome = Ok | Refused | Crashed

  /** `initialize_form`: load the form page; it must answer 200, be logged in and carry the tokens. */
  function InitSpec(t: Tokens, k: int, server: Server): (r: (StageOutcome, Tokens))
    ensures r.0 == Crashed <==> !server(k, FormPage).Responded?
    ensures r.0 == Ok <==>
      server(k, FormPage).Responded? && server(k, FormPage).response.status == 200
      && CheckLoggedIn(server(k, FormPage).response.text)
      && "__VIEWSTATE" in server(k, FormPage).response.inputs
      && "__VIEWSTATEGENERATOR" in server(k, FormPage).response.inputs
    ensures r.0 == Ok ==> r.1 == ParseTokens(t, server(k, FormPage).response.inputs).1
    ensures r.0 == Ok ==> r.1.viewstate.Some? && r.1.generator.Some?
    ensures r.0 != Ok ==> r.1 == t
  {
    match server(k, FormPage)
    case Responded(resp) =>
      if resp.status != 200 then (Refused, t)
      else if !CheckLoggedIn(resp.text) then (Refused, t)
      else
        var p := ParseTokens(t, resp.inputs);
        if p.0 then (Ok, p.1) else (Refused, t)
    case _ => (Crashed, t)
  }

  /** The event target of postback `step` (0 to 4): the radio button, then the four drop-downs. */
  function StepTarget(step: nat): string
    requires step < 5
  {
    ["RdobtnKhewat", "ddldname", "ddltname", "ddlvname", "ddlPeriod"][step]
  }

  /** The selection fields sent with postback `step`: each step fills in one more selection. */
  function StepFields(step: nat, cfg: FormConfig): (m: map<string, string>)
    requires step < 5
    ensures m.Keys == {"a", "ddldname", "ddltname", "ddlvname", "ddlPeriod"}
    ensures m["a"] == "RdobtnKhewat"
  {
    map[
      "a" := "RdobtnKhewat",
      "ddldname" := if step == 0 then "-1" else cfg.district,
      "ddltname" := if step >= 2 then cfg.tehsil else "",
      "ddlvname" := if step >= 3 then cfg.village else "",
      "ddlPeriod" := if step >= 4 then cfg.period else ""]
  }

  function SetupPostback(step: nat, cfg: FormConfig): Request
    requires step < 5
  {
    Postback(StepTarget(step), StepFields(step, cfg))
  }

  /**
   * One selection postback: `None` to go on (the tokens parsed), or the outcome
   * that ends the round; also the new tokens and the reply text.
   */
  function StepSpec(t: Tokens, cfg: FormConfig, k: int, server: Server, step: nat): (r: (Option<StageOutcome>, Tokens, string))
    requires step < 5
    ensures r.0 != Some(Ok)
    ensures r.0 == Some(Crashed) <==> !server(k, SetupPostback(step, cfg)).Responded?
    ensures r.0.None? <==>
      server(k, SetupPostback(step, cfg)).Responded?
      && "__VIEWSTATE" in server(k, SetupPostback(step, cfg)).response.inputs
      && "__VIEWSTATEGENERATOR" in server(k, SetupPostback(step, cfg)).response.inputs
    ensures r.0.None? ==> r.1 == ParseTokens(t, server(k, SetupPostback(step, cfg)).response.inputs).1
                          && r.2 == server(k, SetupPostback(step, cfg)).response.text
    ensures r.0.Some? ==> r.1 == t
  {
    match server(k, SetupPostback(step, cfg))
    case Responded(resp) =>
      var p := ParseTokens(t, resp.inputs);
      (if p.0 then None else Some(Refused), p.1, resp.text)
    case _ => (Some(Crashed), t, "")
  }

  /**
   * `setup_form_selections` from postback `step` on: each reply must carry the
   * tokens; after the last one the page must mention the khewat drop-down
   * (any case). A raised exception ends the round as a crash.
   */
  function SetupFrom(t: Tokens, cfg: FormConfig, k: int, server: Server, step: nat): (r: (StageOutcome, Tokens))
    requires step < 5
    decreases 5 - step
  {
    var st := StepSpec(t, cfg, k, server, step);
    if st.0.Some? then (st.0.value, st.1)
    else if step == 4 then (if ContainsLower(st.2, "ddlkhewat") then Ok else Refused, st.1)
    else SetupFrom(st.1, cfg, k, server, step + 1)
  }

  /** The whole round of selections, as the flag-and-token update the scraper sees. */
  function SetupSpec(t: Tokens, flag: bool, cfg: FormConfig, k: int, server: Server): (StageOutcome, Tokens, bool)
  {
    var r := SetupFrom(t, cfg, k, server, 0);
    (r.0, r.1, if r.0 == Ok then true else flag)
  }

  /** Postbacks name their targets in form order and fill the selections in one at a time. */
  lemma {:induction false} SetupPostbacksFillIn(cfg: FormConfig, step: nat)
    requires step < 5
    ensures var f := StepFields(step, cfg);
      (f["ddldname"] == cfg.district <==> step >= 1 || cfg.district == "-1")
      && (step >= 2 ==> f["ddltname"] == cfg.tehsil)
      && (step >= 3 ==> f["ddlvname"] == cfg.village)
      && (step == 4 <==> StepTarget(step) == "ddlPeriod")
      && (step == 0 <==> StepTarget(step) == "RdobtnKhewat")
  {
    var targets := ["RdobtnKhewat", "ddldname", "ddltname", "ddlvname", "ddlPeriod"];
    assert StepTarget(step) == targets[step];
    assert targets[0] != targets[4] && targets[1] != targets[4] && targets[2] != targets[4] && targets[3] != targets[4];
    assert targets[1] != targets[0] && targets[2] != targets[0] && targets[3] != targets[0];
  }

  // ---------------------------------------------------------------------------
  // The Nakal download
  // ---------------------------------------------------------------------------

  /** The form fields of the Nakal submission for khewat `k` (a token that is `None` is not sent). */
  function NakalFormData(t: Tokens, cfg: FormConfig, k: int): (m: map<string, string>)
    ensures "ddlkhewat" in m && m["ddlkhewat"] == IntToString(k)
    ensures "Cmdnakal" in m && m["Cmdnakal"] == "Nakal"
    ensures "__EVENTVALIDATION" in m <==> t.eventValidation.Some? && t.eventValidation.value != ""
  {
    var base := map[
      "__EVENTTARGET" := "", "__EVENTARGUMENT" := "", "__LASTFOCUS" := "",
      "__VIEWSTATEENCRYPTED" := "", "a" := "RdobtnKhewat",
      "ddldname" := cfg.district, "ddltname" := cfg.tehsil,
      "ddlvname" := cfg.village, "ddlPeriod" := cfg.period,
      "ddlkhewat" := IntToString(k), "Cmdnakal" := "Nakal"];
    var withVs := if t.viewstate.Some? then base["__VIEWSTATE" := t.viewstate.value] else base;
    var withGen := if t.generator.Some? then withVs["__VIEWSTATEGENERATOR" := t.generator.value] else withVs;
    if t.eventValidation.Some? && t.eventValidation.value != "" then
      withGen["__EVENTVALIDATION" := t.eventValidation.value]
    else withGen
  }

  /** Submissions for different khewats are different requests. */
  lemma NakalFormDataDistinct(t: Tokens, cfg: FormConfig, k1: int, k2: int)
    requires k1 != k2
    ensures NakalFormData(t, cfg, k1) != NakalFormData(t, cfg, k2)
  {
    if NakalFormData(t, cfg, k1) == NakalFormData(t, cfg, k2) {
      IntToStringInjective(k1, k2);
    }
  }

  /** The outcome of `download_nakal`, in the order its checks are made. */
  datatype NakalOutcome =
    | HttpError(code: int)
    | SessionExpired
    | NoRecord
    | ErrorPage
    | SavedPdf
    | SavedHtml
    | SmallResponse(length: nat)
    | Timeout
    | Error(message: string)

  /** The reply sends the scraper back to the login page (url or text, any case). */
  predicate LoginRedirect(r: Response) {
    ContainsLower(r.url, "login.aspx") || ContainsLower(r.text, "login.aspx")
  }

  /** The page says the khewat has no record. */
  predicate NoRecordPage(r: Response) {
    ContainsLower(r.text, "no record") || ContainsLower(r.text, "record not found")
  }

  /** The site's error page (its own spelling of "occurred"). */
  predicate SiteErrorPage(r: Response) {
    ContainsLower(r.text, "error page") || ContainsLower(r.text, "some error has occured")
  }

  /** A 200 reply that is neither a login redirect, a "no record" page nor the error page: it gets saved or measured. */
  predicate ContentReply(reply: Reply) {
    reply.Responded? && reply.response.status == 200 && !LoginRedirect(reply.response)
    && !NoRecordPage(reply.response) && !SiteErrorPage(reply.response)
  }

  /** An HTML reply large enough and mentioning the Nakal. */
  predicate NakalHtml(r: Response) {
    |r.text| > 10000 && ContainsLower(r.text, "nakal")
  }

  /**
   * The ordered classification of the submission reply: a status other than
   * 200, then the login redirect, the "no record" page, the error page, a PDF
   * content type, a large Nakal page, and otherwise a small response; a
   * timeout and any other exception are caught last.
   */
  function ClassifyNakal(reply: Reply): (o: NakalOutcome)
    ensures o.HttpError? <==> reply.Responded? && reply.response.status != 200
    ensures o.HttpError? ==> o.code == reply.response.status
    ensures o == SessionExpired <==>
      reply.Responded? && reply.response.status == 200
      && (ContainsLower(reply.response.url, "login.aspx") || ContainsLower(reply.response.text, "login.aspx"))
    ensures o == NoRecord <==>
      reply.Responded? && reply.response.status == 200 && !LoginRedirect(reply.response) && NoRecordPage(reply.response)
    ensures o == ErrorPage <==>
      reply.Responded? && reply.response.status == 200 && !LoginRedirect(reply.response)
      && !NoRecordPage(reply.response) && SiteErrorPage(reply.response)
    ensures o == SavedPdf <==> ContentReply(reply) && ContainsLower(reply.response.contentType, "pdf")
    ensures o == SavedHtml <==>
      ContentReply(reply) && !ContainsLower(reply.response.contentType, "pdf") && NakalHtml(reply.response)
    ensures o.SmallResponse? <==>
      ContentReply(reply) && !ContainsLower(reply.response.contentType, "pdf") && !NakalHtml(reply.response)
    ensures o.SmallResponse? ==> o.length == |reply.response.text|
    ensures o == Timeout <==> reply.TimedOut?
    ensures o.Error? <==> reply.Raised?
    ensures o.Error? ==> o.message == reply.message
  {
    match reply
    case TimedOut => Timeout
    case Raised(e) => Error(e)
    case Responded(r) =>
      if r.status != 200 then HttpError(r.status)
      else if LoginRedirect(r) then SessionExpired
      else if NoRecordPage(r) then NoRecord
      else if SiteErrorPage(r) then ErrorPage
      else if ContainsLower(r.contentType, "pdf") then SavedPdf
      else if NakalHtml(r) then SavedHtml
      else SmallResponse(|r.text|)
  }

  /** The error text recorded for a failed outcome (`None` for the outcomes that record no failure). */
  function FailureText(o: NakalOutcome): Option<string>
  {
    match o
    case HttpError(code) => Some("HTTP " + IntToString(code))
    case NoRecord => Some("No record found")
    case ErrorPage => Some("Error page - needs retry")
    case SmallResponse(n) => Some("Small response: " + IntToString(n) + " bytes")
    case Timeout => Some("Timeout")
    case Error(e) => Some(e)
    case _ => None
  }

  /**
   * `download_nakal(k)`: classify the reply, update progress, tokens and the
   * form flag, and say whether the caller may go on (false only on session
   * expiry).
   */
  function DownloadStep(s: ScraperState, k: int, reply: Reply): (r: (bool, ScraperState))
  {
    var o := ClassifyNakal(reply);
    match o
    case SessionExpired => (false, s)
    case SavedPdf => (true, ScraperState(s.tokens, false, MarkCompleted(s.progress, k)))
    case SavedHtml => (true, ScraperState(s.tokens, false, MarkCompleted(s.progress, k)))
    case NoRecord =>
      var p := MarkFailedData(s.progress, k, "No record found");
      (true, ScraperState(ParseTokens(s.tokens, reply.response.inputs).1, s.formInitialized, p))
    case ErrorPage => (true, ScraperState(s.tokens, false, MarkFailedData(s.progress, k, "Error page - needs retry")))
    case SmallResponse(n) =>
      (true, ScraperState(s.tokens, false, MarkFailedData(s.progress, k, FailureText(o).value)))
    case _ => (true, ScraperState(s.tokens, s.formInitialized, MarkFailedData(s.progress, k, FailureText(o).value)))
  }

  /** A khewat is recorded when it is completed or has an error entry. */
  predicate Recorded(d: ProgressData, k: int) {
    k in d.completed || IntToString(k) in d.failed
  }

  /** The download returns false exactly on session expiry, and then changes nothing. */
  lemma DownloadStopsOnlyOnExpiry(s: ScraperState, k: int, reply: Reply)
    ensures !DownloadStep(s, k, reply).0 <==> ClassifyNakal(reply) == SessionExpired
    ensures !DownloadStep(s, k, reply).0 ==> DownloadStep(s, k, reply).1 == s
  {
  }

  /**
   * Every download that lets the caller go on leaves `k` recorded: completed
   * for a saved PDF or large Nakal page, with its error text otherwise.
   */
  lemma DownloadRecords(s: ScraperState, k: int, reply: Reply)
    ensures var (go, s') := DownloadStep(s, k, reply);
      var o := ClassifyNakal(reply);
      (go ==> Recorded(s'.progress, k))
      && ((o == SavedPdf || o == SavedHtml) ==> k in s'.progress.completed && IntToString(k) !in s'.progress.failed)
      && (FailureText(o).Some? ==> s'.progress.failed[IntToString(k)] == FailureText(o).value
                                   && s'.progress.completed == s.progress.completed)
  {
    var o := ClassifyNakal(reply);
    if o == SavedPdf || o == SavedHtml {
      assert k in MarkCompleted(s.progress, k).completed by {
        if k !in s.progress.completed {
          assert k in multiset(s.progress.completed + [k]);
        }
      }
    }
  }

  /**
   * The form flag: kept on an HTTP error, a "no record" page, a timeout or
   * another exception; cleared after an error page and after every
   * Nakal page that was read (saved or too small).
   */
  lemma DownloadFormFlag(s: ScraperState, k: int, reply: Reply)
    ensures var o := ClassifyNakal(reply);
      var s' := DownloadStep(s, k, reply).1;
      (o.HttpError? || o == NoRecord || o == Timeout || o.Error? || o == SessionExpired ==> s'.formInitialized == s.formInitialized)
      && (o == ErrorPage || o == SavedPdf || o == SavedHtml || o.SmallResponse? ==> !s'.formInitialized)
  {
  }

  /** Marking one khewat never un-records another. */
  lemma RecordedStable(d: ProgressData, j: int, k: int, e: string)
    requires Recorded(d, k)
    ensures Recorded(MarkCompleted(d, j), k)
    ensures Recorded(MarkFailedData(d, j, e), k)
  {
    var d' := MarkCompleted(d, j);
    if k in d.completed {
      if j !in d.completed {
        assert k in multiset(d.completed + [j]);
        assert k in multiset(d'.completed);
      }
    } else if IntToString(k) !in d'.failed {
      IntToStringInjective(j, k);
      if j !in d.completed {
        assert j in multiset(d.completed + [j]);
        assert j in multiset(d'.completed);
      }
    }
  }

  lemma DownloadKeepsRecorded(s: ScraperState, j: int, reply: Reply, k: int)
    requires Recorded(s.progress, k)
    ensures Recorded(DownloadStep(s, j, reply).1.progress, k)
  {
    var o := ClassifyNakal(reply);
    if FailureText(o).Some? {
      RecordedStable(s.progress, j, k, FailureText(o).value);
    } else {
      RecordedStable(s.progress, j, k, "");
    }
  }

  // ---------------------------------------------------------------------------
  // The worker loop
  // ---------------------------------------------------------------------------

  datatype WorkerOutcome = Finished | Stopped | WorkerCrashed

  datatype ItemResult = Continue | Stop | Crash

  /**
   * The form preparation at the start of `_process_item`: nothing when the
   * form is already set up, otherwise the initialisation and then the setup
   * postbacks. The progress is not touched.
   */
  function Prepared(s: ScraperState, cfg: FormConfig, k: int, server: Server): (r: (StageOutcome, ScraperState))
    ensures r.1.progress == s.progress
    ensures s.formInitialized ==> r == (Ok, s)
    ensures r.0 == Ok ==> r.1.formInitialized
  {
    if s.formInitialized then (Ok, s)
    else
      var init := InitSpec(s.tokens, k, server);
      if init.0 != Ok then (init.0, ScraperState(init.1, s.formInitialized, s.progress))
      else
        var setup := SetupSpec(init.1, s.formInitialized, cfg, k, server);
        (setup.0, ScraperState(setup.1, setup.2, s.progress))
  }

  /**
   * One iteration of `_worker_run` for khewat `k`: skip it when completed;
   * otherwise (re)load and set up the form when the flag is down, then
   * download.
   */
  function ProcessItem(s: ScraperState, cfg: FormConfig, k: int, server: Server): (r: (ItemResult, ScraperState))
  {
    if k in s.progress.completed then (Continue, s)
    else
      var ready := Prepared(s, cfg, k, server);
      if ready.0 == Refused then (Stop, ready.1)
      else if ready.0 == Crashed then (Crash, ready.1)
      else
        var d := DownloadStep(ready.1, k, server(k, NakalSubmit(NakalFormData(ready.1.tokens, cfg, k))));
        (if d.0 then Continue else Stop, d.1)
  }

  /** `_worker_run` from batch index `i` on. */
  function WorkerFrom(s: ScraperState, cfg: FormConfig, batch: seq<int>, i: nat, server: Server): (r: (WorkerOutcome, ScraperState))
    requires i <= |batch|
    decreases |batch| - i
  {
    if i == |batch| then (Finished, s)
    else
      var p := ProcessItem(s, cfg, batch[i], server);
      match p.0
      case Continue => WorkerFrom(p.1, cfg, batch, i + 1, server)
      case Stop => (Stopped, p.1)
      case Crash => (WorkerCrashed, p.1)
  }

  lemma ProcessItemKeepsRecorded(s: ScraperState, cfg: FormConfig, j: int, server: Server, k: int)
    requires Recorded(s.progress, k)
    ensures Recorded(ProcessItem(s, cfg, j, server).1.progress, k)
  {
    if j !in s.progress.completed {
      var ready := Prepared(s, cfg, j, server);
      if ready.0 == Ok {
        DownloadKeepsRecorded(ready.1, j, server(j, NakalSubmit(NakalFormData(ready.1.tokens, cfg, j))), k);
      }
    }
  }

  /** A processed item that continues leaves its khewat recorded. */
  lemma ProcessItemRecords(s: ScraperState, cfg: FormConfig, k: int, server: Server)
    ensures ProcessItem(s, cfg, k, server).0 == Continue ==> Recorded(ProcessItem(s, cfg, k, server).1.progress, k)
  {
    if k !in s.progress.completed {
      var ready := Prepared(s, cfg, k, server);
      if ready.0 == Ok {
        DownloadRecords(ready.1, k, server(k, NakalSubmit(NakalFormData(ready.1.tokens, cfg, k))));
      }
    }
  }

  /** One step of `_worker_run`: only a continuing item lets the worker go on, and then from the next index. */
  lemma WorkerStep(s: ScraperState, cfg: FormConfig, batch: seq<int>, i: nat, server: Server)
    requires i < |batch|
    ensures var p := ProcessItem(s, cfg, batch[i], server);
      && (p.0 == Continue ==> WorkerFrom(s, cfg, batch, i, server) == WorkerFrom(p.1, cfg, batch, i + 1, server))
      && (p.0 != Continue ==> WorkerFrom(s, cfg, batch, i, server).0 != Finished)
  {
  }

  /** A worker never un-records a khewat that was recorded when it started. */
  lemma {:induction false} WorkerKeepsRecorded(s: ScraperState, cfg: FormConfig, batch: seq<int>, i: nat, server: Server, k: int)
    requires i <= |batch|
    requires Recorded(s.progress, k)
    ensures Recorded(WorkerFrom(s, cfg, batch, i, server).1.progress, k)
    decreases |batch| - i
  {
    if i < |batch| {
      var p := ProcessItem(s, cfg, batch[i], server);
      ProcessItemKeepsRecorded(s, cfg, batch[i], server, k);
      if p.0 == Continue {
        assert WorkerFrom(s, cfg, batch, i, server) == WorkerFrom(p.1, cfg, batch, i + 1, server);
        WorkerKeepsRecorded(p.1, cfg, batch, i + 1, server, k);
      }
    }
  }

  /**
   * A worker that runs its batch to the end leaves every khewat of the batch
   * recorded: completed, or failed with a reason.
   */
  lemma {:induction false} WorkerFinishedRecordsBatch(s: ScraperState, cfg: FormConfig, batch: seq<int>, i: nat, server: Server)
    requires i <= |batch|
    ensures var r := WorkerFrom(s, cfg, batch, i, server);
      r.0 == Finished ==> forall j :: i <= j < |batch| ==> Recorded(r.1.progress, batch[j])
    decreases |batch| - i
  {
    if i < |batch| {
      var p := ProcessItem(s, cfg, batch[i], server);
      WorkerStep(s, cfg, batch, i, server);
      if p.0 == Continue {
        var r := WorkerFrom(p.1, cfg, batch, i + 1, server);
        ProcessItemRecords(s, cfg, batch[i], server);
        WorkerKeepsRecorded(p.1, cfg, batch, i + 1, server, batch[i]);
        WorkerFinishedRecordsBatch(p.1, cfg, batch, i + 1, server);
        if r.0 == Finished {
          forall j | i <= j < |batch| ensures Recorded(r.1.progress, batch[j]) {
            if j == i {
              assert Recorded(r.1.progress, batch[i]);
            }
          }
        }
      }
    }
  }

  // ---------------------------------------------------------------------------
  // The scraper object
  // ---------------------------------------------------------------------------

  class JamabandiHttpScraper {
    const cfg: FormConfig
    const progress: ProgressTracker
    var viewstate: Option<string>
    var viewstateGenerator: Option<string>
    var eventValidation: Option<string>
    var formInitialized: bool

    ghost predicate Valid()
      reads this, progress
    {
      progress.Valid()
    }

    function Tok(): Tokens
      reads this
    {
      Tokens(viewstate, viewstateGenerator, eventValidation)
    }

    function State(): ScraperState
      reads this, progress
    {
      ScraperState(Tok(), formInitialized, progress.Data())
    }

    /** A new scraper: no tokens yet, form not initialised, sharing `progress`. */
    constructor (cfg: FormConfig, progress: ProgressTracker)
      requires progress.Valid()
      ensures Valid() && this.cfg == cfg && this.progress == progress
      ensures Tok() == InitialTokens && !formInitialized
    {
      this.cfg := cfg;
      this.progress := progress;
      viewstate, viewstateGenerator, eventValidation := None, None, None;
      formInitialized := false;
    }

    method ParseAspTokens(inputs: map<string, Option<string>>) returns (ok: bool)
      modifies this
      ensures (ok, Tok()) == ParseTokens(old(Tok()), inputs)
      ensures formInitialized == old(formInitialized)
    {
      if "__VIEWSTATE" in inputs && "__VIEWSTATEGENERATOR" in inputs {
        viewstate := Some(inputs["__VIEWSTATE"].GetOr(""));
        viewstateGenerator := Some(inputs["__VIEWSTATEGENERATOR"].GetOr(""));
        eventValidation := Some(if "__EVENTVALIDATION" in inputs then inputs["__EVENTVALIDATION"].GetOr("") else "");
        return true;
      }
      return false;
    }

    method InitializeForm(k: int, server: Server) returns (r: StageOutcome)
      modifies this
      ensures (r, Tok()) == InitSpec(old(Tok()), k, server)
      ensures formInitialized == old(formInitialized)
    {
      var reply := server(k, FormPage);
      if !reply.Responded? {
        return Crashed;
      }
      var resp := reply.response;
      if resp.status != 200 {
        return Refused;
      }
      if !CheckLoggedIn(resp.text) {
        return Refused;
      }
      var ok := ParseAspTokens(resp.inputs);
      if !ok {
        return Refused;
      }
      return Ok;
    }

    /** One selection postback; `None` when its tokens parsed and the round goes on. */
    method SelectStep(step: nat, k: int, server: Server) returns (r: Option<StageOutcome>, text: string)
      requires step < 5
      modifies this
      ensures formInitialized == old(formInitialized)
      ensures (r, Tok(), text) == StepSpec(old(Tok()), cfg, k, server, step)
    {
      var reply := server(k, SetupPostback(step, cfg));
      if !reply.Responded? {
        return Some(Crashed), "";
      }
      text := reply.response.text;
      var ok := ParseAspTokens(reply.response.inputs);
      r := if ok then None else Some(Refused);
    }

    /**
     * `setup_form_selections`. The source writes its five postbacks out one
     * after another; they differ only in target and fields (`StepTarget`,
     * `StepFields`), so here they run as one loop over the step index, the
     * first failing postback ending the round.
     */
    method SetupFormSelections(k: int, server: Server) returns (r: StageOutcome)
      modifies this
      ensures (r, Tok(), formInitialized) == SetupSpec(old(Tok()), old(formInitialized), cfg, k, server)
    {
      ghost var spec := SetupFrom(Tok(), cfg, k, server, 0);
      var step, text := 0, "";
      while step < 5
        invariant step <= 5 && formInitialized == old(formInitialized)
        invariant step < 5 ==> SetupFrom(Tok(), cfg, k, server, step) == spec
        invariant step == 5 ==> (if ContainsLower(text, "ddlkhewat") then Ok else Refused, Tok()) == spec
      {
        var stop;
        stop, text := SelectStep(step, k, server);
        if stop.Some? { return stop.value; }
        step := step + 1;
      }
      if ContainsLower(text, "ddlkhewat") {
        formInitialized := true;
        return Ok;
      }
      return Refused;
    }

    method DownloadNakal(k: int, server: Server) returns (go: bool)
      requires Valid()
      modifies this, progress
      ensures Valid()
      ensures (go, State()) == DownloadStep(old(State()), k, server(k, NakalSubmit(NakalFormData(old(Tok()), cfg, k))))
    {
      var reply := server(k, NakalSubmit(NakalFormData(Tok(), cfg, k)));
      var o := ClassifyNakal(reply);
      match o {
        case SessionExpired =>
          return false;
        case SavedPdf =>
          progress.MarkComplete(k);
          formInitialized := false;
        case SavedHtml =>
          progress.MarkComplete(k);
          formInitialized := false;
        case NoRecord =>
          progress.MarkFailed(k, "No record found");
          var _ := ParseAspTokens(reply.response.inputs);
        case ErrorPage =>
          progress.MarkFailed(k, "Error page - needs retry");
          formInitialized := false;
        case SmallResponse(n) =>
          progress.MarkFailed(k, "Small response: " + IntToString(n) + " bytes");
          formInitialized := false;
        case HttpError(code) =>
          progress.MarkFailed(k, "HTTP " + IntToString(code));
        case Timeout =>
          progress.MarkFailed(k, "Timeout");
        case Error(e) =>
          progress.MarkFailed(k, e);
      }
      return true;
    }
  }

  /**
   * `_worker_run`: a fresh scraper (its own session, no tokens) works through
   * `batch` on the shared progress tracker.
   */
  method WorkerRun(batch: seq<int>, cfg: FormConfig, progress: ProgressTracker, server: Server) returns (outcome: WorkerOutcome)
    requires progress.Valid()
    modifies progress
    ensures progress.Valid()
    ensures var r := WorkerFrom(ScraperState(InitialTokens, false, old(progress.Data())), cfg, batch, 0, server);
      outcome == r.0 && progress.Data() == r.1.progress
  {
    var scraper := new JamabandiHttpScraper(cfg, progress);
    ghost var spec := WorkerFrom(scraper.State(), cfg, batch, 0, server);
    var i := 0;
    while i < |batch|
      invariant 0 <= i <= |batch|
      invariant scraper.progress == progress && scraper.cfg == cfg && scraper.Valid()
      invariant WorkerFrom(scraper.State(), cfg, batch, i, server) == spec
    {
      var k := batch[i];
      if k in progress.completed {
        i := i + 1;
        continue;
      }
      if !scraper.formInitialized {
        var init := scraper.InitializeForm(k, server);
        if init == Refused { return Stopped; }
        if init == Crashed { return WorkerCrashed; }
        var setup := scraper.SetupFormSelections(k, server);
        if setup == Refused { return Stopped; }
        if setup == Crashed { return WorkerCrashed; }
      }
      var go := scraper.DownloadNakal(k, server);
      if !go {
        return Stopped;
      }
      i := i + 1;
    }
    return Finished;
  }

  // ---------------------------------------------------------------------------
  // Concurrent mode: contiguous batches and the worker clamp
  // ---------------------------------------------------------------------------

  function Flatten(batches: seq<seq<int>>): seq<int>
  {
    if batches == [] then [] else Flatten(batches[..|batches| - 1]) + batches[|batches| - 1]
  }

  /** The size of batch `w` of `run_concurrent`: the quotient, plus one for the first `remainder` batches. */
  function BatchSize(n: nat, workers: nat, w: nat): nat
    requires workers >= 1
  {
    n / workers + (if w < n % workers then 1 else 0)
  }

  /**
   * The batch split of `run_concurrent`: no batches for an empty pending list;
   * otherwise `min(numWorkers, |pending|)` contiguous slices whose
   * concatenation is `pending`. They are non-empty, and the first
   * `|pending| % workers` of them are one longer than the rest.
   */
  method SplitContiguous(pending: seq<int>, numWorkers: int) returns (batches: seq<seq<int>>)
    requires numWorkers >= 1
    ensures pending == [] ==> batches == []
    ensures pending != [] ==> |batches| == if numWorkers < |pending| then numWorkers else |pending|
    ensures Flatten(batches) == pending
    ensures forall w :: 0 <= w < |batches| ==> |batches[w]| == BatchSize(|pending|, |batches|, w)
    ensures forall w :: 0 <= w < |batches| ==> batches[w] != []
  {
    if pending == [] {
      return [];
    }
    var workers := if numWorkers < |pending| then numWorkers else |pending|;
    var batchSize := |pending| / workers;
    var remainder := |pending| % workers;
    batches := [];
    var start := 0;
    var w := 0;
    while w < workers
      invariant 0 <= w <= workers
      invariant |batches| == w
      invariant start == BatchStart(|pending|, workers, w) <= |pending|
      invariant Flatten(batches) == pending[..start]
      invariant forall v :: 0 <= v < w ==> |batches[v]| == BatchSize(|pending|, workers, v)
      invariant forall v :: 0 <= v < w ==> batches[v] != []
    {
      BatchStartBounds(|pending|, workers, w + 1);
      BatchSizePositive(|pending|, workers, w);
      var end := start + batchSize + (if w < remainder then 1 else 0);
      assert pending[..start] + pending[start..end] == pending[..end];
      batches := batches + [pending[start..end]];
      assert batches[..|batches| - 1] == batches[..w];
      start := end;
      w := w + 1;
    }
    BatchStartBounds(|pending|, workers, workers);
    assert pending[..start] == pending;
  }

  /** Where batch `w` starts: the sizes of the batches before it, summed. */
  function BatchStart(n: nat, workers: nat, w: nat): nat
    requires workers >= 1
  {
    if w == 0 then 0 else BatchStart(n, workers, w - 1) + BatchSize(n, workers, w - 1)
  }

  lemma BatchSizePositive(n: nat, workers: nat, w: nat)
    requires 1 <= workers <= n
    ensures BatchSize(n, workers, w) >= 1
  {
    assert n / workers >= 1;
  }

  /** The closed form of a batch start. */
  lemma {:induction false} BatchStartClosed(n: nat, workers: nat, w: nat)
    requires 1 <= workers
    ensures BatchStart(n, workers, w) == w * (n / workers) + (if w < n % workers then w else n % workers)
  {
    if w > 0 {
      BatchStartClosed(n, workers, w - 1);
      assert w * (n / workers) == (w - 1) * (n / workers) + n / workers;
    }
  }

  /** Every start lies within the list, and the start after the last batch is its end. */
  lemma BatchStartBounds(n: nat, workers: nat, w: nat)
    requires 1 <= workers && w <= workers
    ensures BatchStart(n, workers, w) <= n
    ensures BatchStart(n, workers, workers) == n
  {
    var q, r := n / workers, n % workers;
    BatchStartClosed(n, workers, w);
    BatchStartClosed(n, workers, workers);
    assert workers * q + r == n;
    MulMonotone(w, workers, q);
  }

  lemma MulMonotone(a: nat, b: nat, c: nat)
    requires a <= b
    ensures a * c <= b * c
  {
  }

  /** `main`: the worker count is clamped to between 1 and 8. */
  function ClampWorkers(requested: int): (r: int)
    ensures 1 <= r <= 8
    ensures 1 <= requested <= 8 ==> r == requested
    ensures requested < 1 ==> r == 1
    ensures requested > 8 ==> r == 8
  {
    if requested > 8 then 8 else if requested < 1 then 1 else requested
  }

  /**
   * `main`'s `--start` and `--end` overrides use truthiness: an absent value
   * or 0 keeps the configured bound.
   */
  function OverrideBound(arg: Option<int>, configured: int): (r: int)
    ensures arg.Some? && arg.value != 0 ==> r == arg.value
    ensures arg.None? || arg.value == 0 ==> r == configured
  {
    match arg
    case Some(v) => if v != 0 then v else configured
    case None => configured
  }
}
