# Jamabandi land-record scraper: a verified model of its core

This project models the logic of the Jamabandi scraper in Dafny. The scraper is a
tool that logs into the Haryana land-record portal with a session cookie and
downloads the "Nakal" (certified copy) of every khewat (holding) number in a
range. The model covers:

- the resumable download engine of `scraper/http_scraper.py`:
  - the progress tracker (also used, unchanged, by `scraper/selenium_scraper.py`);
  - the ASP.NET token and login checks;
  - the five-postback form set-up;
  - the ordered classification of a Nakal reply;
  - the per-worker loop;
  - the contiguous batch split and the worker clamp;
- the helper modules it relies on:
  - retry manager and adaptive rate limiter;
  - download validator and session state machine;
  - download statistics and cookie handling;
  - configuration merge and lookup;
  - PDF batch conversion and PDF backend choice;
  - version comparison;
  - the GUI's path, migration, progress-line and launch logic.

Each source file is one Dafny module. Python classes that update their fields
become Dafny classes. Each method's `ensures` ties the new state to a pure
function of the old state, and the properties are proved as lemmas about those
functions. Time, the network, the file system and callbacks become parameters:
- `now`;
- a server oracle;
- whether a file exists;
- whether a callback is installed, plus the log of calls it receives.

| file | module |
|---|---|
| `wrappers.dfy` | `Wrappers`: `Option` |
| `strings.dfy` | `Strings`: ASCII lower-casing, substring search, Python `strip`/`split`, decimal text |
| `progress.dfy` | `Progress`: the progress tracker of both scrapers |
| `http_scraper.dfy` | `HttpScraper`: tokens, form set-up, Nakal classification, worker loop, batch split |
| `retry_manager.dfy` | `RetryManager` |
| `rate_limiter.dfy` | `RateLimiting` |
| `validator.dfy` | `Validator` |
| `session_manager.dfy` | `Sessions` |
| `statistics.dfy` | `Statistics` |
| `cookie_capture.dfy` | `CookieCapture` |
| `config.dfy` | `Configuration` |
| `pdf_converter.dfy` | `PdfConverter` |
| `pdf_backend.dfy` | `PdfBackend` |
| `update_checker.dfy` | `UpdateChecker` |
| `gui.dfy` | `Gui` |

Where the code and its documentation disagree, the model follows the code:
- Completed and failed khewats are not kept disjoint. `mark_failed` after `mark_complete` leaves a khewat in both (`Progress.CompletedAndFailedOverlap`).
- The progress tracker has no save interval, flush, statistics or atomic save. It writes the file directly on every change.
- `record_response` treats every status below 400 as a success, not only 200–399 replies.
- The GUI holds the concurrent worker count to 3..8. The scraper's own command line holds it to 1..8.
- The PDF converter's `split_into_batches` is round-robin, although its docstring calls it chunk-based.
- The "Pending" figure of `get_summary` is the configured range minus the completed count. It can be negative when completed ids lie outside the range.
- `setup_form_selections` is written out as five nearly identical blocks. It is modelled as a loop over the five steps, with the same request, checks and order.

## Model

| member | source | states |
|---|---|---|
| Progress.InsertSorted | scraper/http_scraper.py:116-118 | inserting into an ascending list keeps it ascending, one longer, with the same elements plus the new one (as a multiset) |
| Progress.Sort | scraper/http_scraper.py:118 | `list.sort()` yields an ascending permutation of its input |
| Progress.SortDistinctIsStrict | scraper/http_scraper.py:116-118 | sorting a duplicate-free list gives a strictly ascending list |
| Progress.MarkCompletedKeepsOrder | scraper/http_scraper.py:114-118 | from a strictly ascending completed list, `mark_complete(k)` leaves a strictly ascending list holding exactly the old ids plus `k` |
| Progress.MarkCompletedOnce | scraper/selenium_scraper.py:109-113 | afterwards `k` occurs exactly once, and the list grows by one only when `k` was new |
| Progress.MarkCompletedFailures | scraper/http_scraper.py:119 | `mark_complete(k)` removes the failure entry `str(k)` and keeps every other entry |
| Progress.MarkFailedEffect | scraper/http_scraper.py:122-125 | `mark_failed(k, e)` sets (overwrites) `failed[str(k)] = e` and leaves `completed` untouched |
| Progress.CompletedAndFailedOverlap | scraper/http_scraper.py:114-125 | a khewat completed and then failed sits in both collections: disjointness is not an invariant |
| Progress.Pending | scraper/http_scraper.py:127-130 | the pending ids are strictly ascending, and `x` is pending iff `start <= x <= end` and `x` is not completed |
| Progress.PendingExample | scraper/http_scraper.py:114-130 | completing 2 and 4 and then asking for 1..5 gives `[1, 3, 5]` |
| Progress.PendingOfTwoFour | scraper/selenium_scraper.py:123-126 | with completed `[2, 4]` the pending ids of 1..5 are `[1, 3, 5]` |
| Progress.SummaryOf | scraper/selenium_scraper.py:128-134 | the summary counts the completed list and the failures, with pending `(end - start + 1) - len(completed)`; `SummaryPendingMatches` relates that count to `get_pending` |
| Progress.SummaryPendingMatches | scraper/http_scraper.py:114-139 | when every completed id is distinct and lies in the configured range, the summary's pending count is the number of ids `get_pending` returns |
| Progress.SummaryPendingOutsideRange | scraper/http_scraper.py:132-139 | with ids completed outside the range the two disagree: completed `[5, 6]` over `1..1` prints pending `-1` while `get_pending` returns `[1]` |
| Progress.PendingPlusCompleted | scraper/http_scraper.py:114-130 | every id of the range is either pending or counted once among the completed ids |
| Progress.ProgressTracker.constructor | scraper/http_scraper.py:81-83 | a tracker without a progress file starts with nothing completed and nothing failed |
| Progress.ProgressTracker.MarkComplete | scraper/http_scraper.py:114-120 | the in-place append, sort and pop produce `MarkCompleted` of the old data and keep the list strictly ascending |
| Progress.ProgressTracker.MarkFailed | scraper/http_scraper.py:122-125 | the in-place key assignment produces `MarkFailedData` of the old data |
| Progress.ProgressTracker.GetPending | scraper/http_scraper.py:127-130 | `get_pending` reads the tracker only and returns exactly the ascending uncompleted ids in range |
| Progress.ProgressTracker.GetSummary | scraper/http_scraper.py:132-139 | the text is `Completed: c, Failed: f, Pending: p` with the tracker's counts; on a valid tracker whose completed ids lie in the range, `p` is the length of `get_pending(start, end)` |
| HttpScraper.ParseTokens | scraper/http_scraper.py:179-192 | succeeds iff both `__VIEWSTATE` and `__VIEWSTATEGENERATOR` inputs exist; on success it stores their values (missing `value` as `""`) and event validation (absent input as `""`); on failure it changes nothing |
| HttpScraper.CheckLoggedIn | scraper/http_scraper.py:194-200 | logged in iff the lower-cased page has neither `login.aspx` nor `enter mobile` and the page itself contains `ddldname` |
| HttpScraper.InitSpec | scraper/http_scraper.py:228-247 | the load crashes iff no reply arrives; it succeeds iff the reply is a 200, the login check passes and both view-state tokens are present, and then the tokens are those parsed (and set); on every failure the tokens are unchanged |
| HttpScraper.StepFields | scraper/http_scraper.py:256-322 | every set-up postback sends the `a`, district, tehsil, village and period fields, with `a` = `RdobtnKhewat` |
| HttpScraper.StepSpec | scraper/http_scraper.py:249-326 | a step never reports success; it crashes iff no reply arrives; it continues iff the reply carries both view-state tokens, and then the tokens are the parsed ones and the page text is kept; a stopped step leaves the tokens as they were |
| HttpScraper.SetupPostbacksFillIn | scraper/http_scraper.py:256-323 | step `i` posts to its own target and fills in the selections made so far, blank for the later ones |
| HttpScraper.NakalFormData | scraper/http_scraper.py:346-362 | the Nakal request names the khewat as decimal text and the `Nakal` button, and carries `__EVENTVALIDATION` iff a non-empty one is held |
| HttpScraper.NakalFormDataDistinct | scraper/http_scraper.py:358 | two different khewats give two different requests |
| HttpScraper.ClassifyNakal | scraper/http_scraper.py:374-451 | one iff per outcome: an HTTP error carries the status of any non-200 reply; on a 200, a `login.aspx` url or text means an expired session, before "no record", the site error page, a PDF content type, an HTML page of more than 10000 characters containing `nakal`, and otherwise a small response of that length; a timeout and an exception map to their outcomes with the message kept |
| HttpScraper.DownloadStopsOnlyOnExpiry | scraper/http_scraper.py:374-451 | `download_nakal` returns false iff the session expired, and then it changes nothing |
| HttpScraper.DownloadRecords | scraper/http_scraper.py:374-451 | otherwise the khewat ends up completed or failed with the message of its case (`HTTP <code>`, `No record found`, `Error page - needs retry`, `Small response: N bytes`, `Timeout`, the exception text) |
| HttpScraper.DownloadFormFlag | scraper/http_scraper.py:387-441 | the form flag is kept after an HTTP error, a "no record" reply (which also refreshes the tokens), a timeout, an exception and an expired session; it is cleared after the site error page, a saved PDF or HTML page and a small response |
| HttpScraper.RecordedStable | scraper/http_scraper.py:114-125 | once a khewat is completed or failed, later `mark_complete`/`mark_failed` calls keep it so |
| HttpScraper.DownloadKeepsRecorded | scraper/http_scraper.py:341-451 | a download never un-records an already recorded khewat |
| HttpScraper.Prepared | scraper/http_scraper.py:543-551 | preparing the form never touches progress, does nothing when the form is ready, and when it succeeds the form is ready |
| HttpScraper.ProcessItemKeepsRecorded | scraper/http_scraper.py:537-557 | handling one batch item never un-records a khewat |
| HttpScraper.ProcessItemRecords | scraper/http_scraper.py:537-557 | when the worker carries on after an item, that item is recorded (completed or failed) |
| HttpScraper.WorkerStep | scraper/http_scraper.py:537-562 | the worker's run from item `i` is that item's handling followed by the run from `i + 1` unless it stopped |
| HttpScraper.WorkerKeepsRecorded | scraper/http_scraper.py:537-564 | a worker never un-records a khewat |
| HttpScraper.WorkerFinishedRecordsBatch | scraper/http_scraper.py:520-564 | a worker that finishes its batch leaves every khewat of the batch recorded |
| HttpScraper.JamabandiHttpScraper.constructor | scraper/http_scraper.py:153-177 | a new scraper holds no tokens and an uninitialised form |
| HttpScraper.JamabandiHttpScraper.ParseAspTokens | scraper/http_scraper.py:179-192 | the method updates the token fields exactly as `ParseTokens` and leaves the form flag alone |
| HttpScraper.JamabandiHttpScraper.InitializeForm | scraper/http_scraper.py:228-247 | the method's outcome and tokens are those of `InitSpec` |
| HttpScraper.JamabandiHttpScraper.SelectStep | scraper/http_scraper.py:256-326 | one postback of the set-up, as `StepSpec` |
| HttpScraper.JamabandiHttpScraper.SetupFormSelections | scraper/http_scraper.py:249-339 | the five postbacks in order, stopping at the first failure, then the form flag set iff `ddlkhewat` appears, as `SetupSpec` |
| HttpScraper.JamabandiHttpScraper.DownloadNakal | scraper/http_scraper.py:341-451 | one Nakal submission updates tokens, form flag and progress as `DownloadStep` and keeps the progress list ascending |
| HttpScraper.WorkerRun | scraper/http_scraper.py:520-564 | the loop of `_worker_run` over its batch ends in the state and outcome of `WorkerFrom` |
| HttpScraper.SplitContiguous | scraper/http_scraper.py:575-597 | `min(workers, len)` batches (none when nothing is pending), concatenating back to `pending`, each non-empty, of size `len // w` plus one for the first `len % w` |
| HttpScraper.BatchSizePositive | scraper/http_scraper.py:590-595 | with no more workers than items every batch size is at least one |
| HttpScraper.BatchStartClosed | scraper/http_scraper.py:593-597 | batch `w` starts at `w * (len // n) + min(w, len % n)` |
| HttpScraper.BatchStartBounds | scraper/http_scraper.py:593-597 | every batch start lies within the list, and the last batch ends at its end |
| HttpScraper.ClampWorkers | scraper/http_scraper.py:684 | `max(1, min(workers, 8))` lies in 1..8 and keeps any count already in range |
| HttpScraper.OverrideBound | scraper/http_scraper.py:679-682 | `--start`/`--end` replace the configured bound only when given and non-zero |
| RetryManager.Classify | scraper/retry_manager.py:42-70 | permanent iff the lower-cased error contains one of `no record`, `not found`, `invalid`, `does not exist`; transient otherwise |
| RetryManager.IndexOf | scraper/retry_manager.py:54-55 | finds the first item of a khewat, or proves there is none |
| RetryManager.Retryable | scraper/retry_manager.py:72-79 | the retryable khewats are exactly those of transient items under the retry limit; `RetryableAppend` and `RetryableOne` give their order |
| RetryManager.RetryableAppend | scraper/retry_manager.py:72-79 | the candidates of a concatenated list are those of each part in order, so the comprehension keeps list order |
| RetryManager.RetryableOne | scraper/retry_manager.py:72-79 | one item contributes its khewat iff it is transient and under the retry limit |
| RetryManager.PermanentItems | scraper/retry_manager.py:81-86 | exactly the permanent items |
| RetryManager.Remove | scraper/retry_manager.py:109 | exactly the items of other khewats remain |
| RetryManager.Backoff | scraper/retry_manager.py:99-104 | the sleep is `min(retry_delay * 2 ** retry_count, 30)`: never above 30 nor the uncapped product, equal to the product below 30 and to 30 at or above it, non-negative for a non-negative delay |
| RetryManager.BackoffDoubles | scraper/retry_manager.py:99-104 | each further failure doubles the sleep until it reaches the 30-second cap, so the sleep never shrinks |
| RetryManager.RecordNew | scraper/retry_manager.py:60-62 | a new khewat is appended once with count 0 and its classification, after the existing items |
| RetryManager.RecordExisting | scraper/retry_manager.py:54-58 | a known khewat keeps its place, length and classification; its count rises by one and its error is replaced |
| RetryManager.RecordKeepsUnique | scraper/retry_manager.py:50-63 | recording keeps khewats unique |
| RetryManager.RemoveKeepsUnique | scraper/retry_manager.py:109 | removal keeps khewats unique and keeps every other item |
| RetryManager.RetryableNoDup | scraper/retry_manager.py:72-79 | with unique khewats the retry candidates are distinct |
| RetryManager.RetryAllFindsItems | scraper/retry_manager.py:97-98 | every khewat of the candidate snapshot is still listed when its turn comes, so the lookup never fails |
| RetryManager.StepKeeps | scraper/retry_manager.py:106-116 | a retry changes only the retried khewat's items: removed on success, count bumped (and error replaced on an exception) otherwise |
| RetryManager.RetryAllCounts | scraper/retry_manager.py:95-118 | `succeeded + failed` equals the number of candidates, with one sleep before each attempt |
| RetryManager.RetryAllKeepsPermanent | scraper/retry_manager.py:88-118 | permanent items are never retried: they are the same before and after `retry_all` |
| RetryManager.RetryAllOnCandidates | scraper/retry_manager.py:72-118 | on its own snapshot and with unique khewats, `retry_all` attempts every candidate once, with one sleep each, and keeps every permanent item |
| RetryManager.RetryFromUnfold | scraper/retry_manager.py:97-116 | one attempt is counted (success or failure) after its backoff sleep, followed by the rest of the run |
| RetryManager.RetryStepKeeps | scraper/retry_manager.py:97-116 | one retry keeps khewats distinct and the later candidates listed |
| RetryManager.RetryLoopStep | scraper/retry_manager.py:97-116 | one iteration of the loop keeps its invariant against the whole run |
| RetryManager.EffectiveMaxRetries | scraper/retry_manager.py:46 | `max_retries or configured`: an absent or zero argument falls back to the configured value |
| RetryManager.RetryManager.constructor | scraper/retry_manager.py:44-48 | an empty failure list, the effective retry limit and the configured delay |
| RetryManager.RetryManager.RecordFailure | scraper/retry_manager.py:50-63 | the in-place update of the list is `Record`, and khewats stay unique |
| RetryManager.RetryManager.GetRetryable | scraper/retry_manager.py:72-79 | `get_retryable` is `Retryable` of the list |
| RetryManager.RetryManager.GetPermanentFailures | scraper/retry_manager.py:81-86 | `get_permanent_failures` is `PermanentItems` of the list |
| RetryManager.RetryManager.Summary | scraper/retry_manager.py:120-125 | `total`, `retryable` and `permanent` are the sizes of the list, the candidates and the permanent items |
| RetryManager.RetryManager.RetryOne | scraper/retry_manager.py:98-116 | one attempt updates the list as `Step` and reports whether the download succeeded |
| RetryManager.RetryManager.RetryAll | scraper/retry_manager.py:88-118 | all zeros when nothing is retryable; otherwise `retried` is the snapshot size and the counters, sleeps and final list are those of the run |
| RateLimiting.InitialState | scraper/rate_limiter.py:33-40 | a new limiter starts at `min_delay`, with no errors and an empty window |
| RateLimiting.PushWindowKeepsLatest | scraper/rate_limiter.py:94-97 | the bounded window keeps the newest `window_size` latencies, ending with the one just recorded |
| RateLimiting.AfterRateLimit | scraper/rate_limiter.py:81-87 | a 429 adds one error, backs off `min(60, 2 ** errors)` seconds from now, and doubles the delay up to `max_delay` |
| RateLimiting.BackoffSeconds | scraper/rate_limiter.py:84 | the backoff lies in 1..60 and is 60 or `2 ** count` |
| RateLimiting.AfterError | scraper/rate_limiter.py:89-92 | a 5xx adds one error and multiplies the delay by 1.5 up to `max_delay`; the backoff deadline is unchanged |
| RateLimiting.AfterSuccess | scraper/rate_limiter.py:94-102 | a success records the latency, decrements the error count down to 0, and lowers the delay by 10% (floored at `min_delay`) only with a full window, a mean under 1000 ms and no errors |
| RateLimiting.StatsOf | scraper/rate_limiter.py:104-114 | the stats report the delay, the error count and the window mean (0 for an empty window) |
| RateLimiting.InitialBounded | scraper/rate_limiter.py:33-36 | with `0 <= min_delay <= max_delay` a new limiter is within bounds |
| RateLimiting.AfterResponseBounded | scraper/rate_limiter.py:71-102 | every response keeps the delay in `[min_delay, max_delay]` and the window within its size |
| RateLimiting.RateLimitBounded | scraper/rate_limiter.py:81-87 | a 429 keeps those bounds |
| RateLimiting.ErrorBounded | scraper/rate_limiter.py:89-92 | a 5xx keeps those bounds |
| RateLimiting.SuccessBounded | scraper/rate_limiter.py:94-102 | a success keeps those bounds |
| RateLimiting.RecordAllBounded | scraper/rate_limiter.py:71-102 | after any sequence of responses the bounds still hold |
| RateLimiting.NegativeMinimumEscapes | scraper/rate_limiter.py:31-33 | a negative minimum delay lets the delay leave its range, so the bounds need `min_delay >= 0` |
| RateLimiting.ClientErrorIgnored | scraper/rate_limiter.py:73-79 | a 4xx status other than 429 changes nothing |
| RateLimiting.TwoRateLimitsBackOff | scraper/rate_limiter.py:81-87 | two 429s from a fresh limiter back off 2 and then 4 seconds |
| RateLimiting.BackoffCapped | scraper/rate_limiter.py:84 | the backoff doubles up to the fifth error and is capped at 60 from the sixth |
| RateLimiting.WaitRespectsLimits | scraper/rate_limiter.py:42-65 | `wait` sleeps until the backoff deadline during a backoff, otherwise the rest of the current delay since the last request, never a negative time, and books the next slot at `now + wait` |
| RateLimiting.AverageWithinLatencies | scraper/rate_limiter.py:110-113 | the mean lies between the smallest and the largest latency of the window |
| RateLimiting.RateLimiter.constructor | scraper/rate_limiter.py:24-40 | the `or`-defaulted limits, the window size and the initial state |
| RateLimiting.RateLimiter.Wait | scraper/rate_limiter.py:42-65 | the wait time and new state are `WaitSpec` |
| RateLimiting.RateLimiter.RecordResponse | scraper/rate_limiter.py:71-79 | the state after a response is `AfterResponse`, dispatched on the status in the code's order |
| RateLimiting.RateLimiter.HandleRateLimit | scraper/rate_limiter.py:81-87 | the state after a 429 is `AfterRateLimit` |
| RateLimiting.RateLimiter.HandleError | scraper/rate_limiter.py:89-92 | the state after a 5xx is `AfterError` |
| RateLimiting.RateLimiter.HandleSuccess | scraper/rate_limiter.py:94-102 | the state after a success is `AfterSuccess` |
| RateLimiting.RateLimiter.Stats | scraper/rate_limiter.py:104-114 | the stats of the current state |
| Validator.SkipSpaces | scraper/validator.py:34-38 | skips a whole whitespace run, stopping at a non-space or the end |
| Validator.GreedyMatchIff | scraper/validator.py:34-69 | the matcher succeeds exactly where the pattern `w0\s+w1\s+...` matches |
| Validator.SearchFrom | scraper/validator.py:69 | the scan finds a start where the matcher succeeds, or proves there is none |
| Validator.SearchIff | scraper/validator.py:69 | the search succeeds iff `re.search` of the pattern does |
| Validator.ErrorPatternsWellFormed | scraper/validator.py:33-39 | the five error patterns have the `word\s+word` form |
| Validator.FirstFound | scraper/validator.py:68-74 | the first pattern of the list that is found, or none found |
| Validator.ValidatePdfCases | scraper/validator.py:41-62 | a missing file is invalid; a file under 10240 bytes is only a warning with its size; a larger one is valid (with its size) iff it can be read and starts with `%PDF-` |
| Validator.ValidateHtmlCases | scraper/validator.py:64-82 | invalid iff an error pattern is found in the lower-cased text, naming the first one; otherwise a warning iff the original text has fewer than 1000 characters |
| Validator.NoRecordAcrossWhitespace | scraper/validator.py:34-74 | `No  Record\nFound` is an error page: `\s+` spans any whitespace run and case is ignored |
| Validator.NoRecordFound | scraper/validator.py:34-69 | the pattern `no\s+record\s+found` is found in `no  record\nfound` |
| Validator.ValidateDownloadCases | scraper/validator.py:85-98 | an invalid HTML result is returned as is, then a non-valid PDF result; otherwise `Download validated`, even after an HTML warning |
| Sessions.IsExpiredResponse | scraper/session_manager.py:27-119 | expired iff the lower-cased url contains a url pattern or the lower-cased content a content pattern |
| Sessions.InitKeepsEvent | scraper/session_manager.py:47-58 | a new manager is ACTIVE with the given cookie and the event set |
| Sessions.ApplyKeepsEvent | scraper/session_manager.py:121-169 | every operation keeps "event set iff ACTIVE" |
| Sessions.RunKeepsEvent | scraper/session_manager.py:121-169 | after any sequence of operations the event is set iff the state is ACTIVE |
| Sessions.MarkExpiredIdempotent | scraper/session_manager.py:121-140 | `mark_expired` ends EXPIRED, fires the callback only from a non-EXPIRED state, and a second call changes nothing |
| Sessions.NoRevivalStep | scraper/session_manager.py:121-202 | an operation other than a refresh or a new cookie either changes no calls or expires the session with one expiry call |
| Sessions.ExpiryCallbackAtMostOnce | scraper/session_manager.py:127-140 | without a new cookie or refresh in between, the expiry callback fires at most once, and not at all once EXPIRED |
| Sessions.RefreshingExpiresAgain | scraper/session_manager.py:129-146 | expired, refreshing, expired again fires the expiry callback twice |
| Sessions.UpdateCookieEffect | scraper/session_manager.py:149-169 | `update_cookie(c)` from any state ends ACTIVE with cookie `c`, the event set, and one refresh call with `c` when installed |
| Sessions.MarkRefreshingEffect | scraper/session_manager.py:142-147 | `mark_refreshing` changes EXPIRED into REFRESHING and nothing else, and is a no-op in any other state |
| Sessions.CheckAndHandleEffect | scraper/session_manager.py:188-202 | returns the detection and marks the session expired only when it detects expiry |
| Sessions.LoginRedirectDetected | scraper/session_manager.py:27-111 | a redirect to `/Login.aspx` is detected whatever its case |
| Sessions.SessionManager.constructor | scraper/session_manager.py:47-62 | the initial data of a manager for that cookie |
| Sessions.SessionManager.SetOnSessionExpired | scraper/session_manager.py:81-84 | installs or removes the expiry callback and nothing else |
| Sessions.SessionManager.SetOnSessionRefreshed | scraper/session_manager.py:91-94 | installs or removes the refresh callback and nothing else |
| Sessions.SessionManager.MarkExpired | scraper/session_manager.py:121-140 | the fields after `mark_expired` are `MarkedExpired` |
| Sessions.SessionManager.MarkRefreshing | scraper/session_manager.py:142-147 | the fields after `mark_refreshing` are `MarkedRefreshing` |
| Sessions.SessionManager.UpdateCookie | scraper/session_manager.py:149-169 | the fields after `update_cookie` are `CookieUpdated` |
| Sessions.SessionManager.CheckAndHandleResponse | scraper/session_manager.py:188-202 | the result and fields are `CheckAndHandle` |
| Statistics.InitialState | scraper/statistics.py:45-55 | a new tracker has no completions, failures or bytes and an empty window |
| Statistics.Pruned | scraper/statistics.py:76-80 | pruning drops only a front run of entries older than the cutoff and stops at the first entry that is not |
| Statistics.PrunedWithinWindow | scraper/statistics.py:76-80 | with non-decreasing times every entry left lies within the window |
| Statistics.PrunedIdempotent | scraper/statistics.py:76-80 | pruning again at the same cutoff removes nothing more |
| Statistics.PruneWindow | scraper/statistics.py:76-80 | the pop loop over the window leaves exactly `Pruned` of it |
| Statistics.RoundTenthsError | scraper/statistics.py:207-209 | the one-decimal rounding is within half a tenth of the exact quotient |
| Statistics.EtaParts | scraper/statistics.py:215-216 | minutes and seconds are the floor of `seconds / 60` and of the remainder, the seconds below 60 |
| Statistics.InitialStats | scraper/statistics.py:45-157 | a new tracker reports nothing done and everything pending |
| Statistics.RecordEffects | scraper/statistics.py:58-74 | `record_success(b)` adds one completion and `b` bytes; `record_failure` adds one failure; nothing else but the window changes |
| Statistics.SuccessKeepsWindow | scraper/statistics.py:58-80 | with the clock never going back, after a success the window stays in time order and within the window length |
| Statistics.AppendPrunedInWindow | scraper/statistics.py:68-69 | appending a time no earlier than the last and pruning leaves a window between the cutoff and that time |
| Statistics.PrunedKeepsWindow | scraper/statistics.py:76-80 | pruning an ordered window keeps it ordered and at or after the cutoff |
| Statistics.SuccessRateBounds | scraper/statistics.py:140-145 | the success rate lies in 0..100, equals `100 * completed / processed`, and is 0 when nothing was processed |
| Statistics.EtaMeaning | scraper/statistics.py:134-138 | the ETA exists iff speed and pending are positive, and is then `pending / speed * 60` |
| Statistics.ResetEffect | scraper/statistics.py:222-236 | `reset` zeroes counts and bytes, empties the window, and replaces the total only when a new one is given |
| Statistics.FormatBytesUnit | scraper/statistics.py:202-209 | `N B` below 1024, a `KB` text below 1024², an `MB` text above |
| Statistics.FormatBytesExamples | scraper/statistics.py:202-209 | 500 reads `500 B`; 1536 bytes round to 1.5 KB; 5 MiB to 5.0 MB; halves round to even |
| Statistics.FormatEtaExamples | scraper/statistics.py:211-220 | 125.5 s reads `2m 5s`, 59.9 s reads `59s`, a negative one `--` |
| Statistics.StatisticsTracker.constructor | scraper/statistics.py:37-56 | the initial state at the given time, with the window length |
| Statistics.StatisticsTracker.RecordSuccess | scraper/statistics.py:58-69 | the state after a success is `AfterSuccess` |
| Statistics.StatisticsTracker.RecordFailure | scraper/statistics.py:71-74 | the state after a failure is `AfterFailure` |
| Statistics.StatisticsTracker.PruneOldEntries | scraper/statistics.py:76-80 | the pop loop leaves exactly `Pruned` of the window and changes nothing else |
| Statistics.StatisticsTracker.GetStats | scraper/statistics.py:82-157 | prunes first, then reports `StatsOf` the pruned state |
| Statistics.StatisticsTracker.Reset | scraper/statistics.py:222-236 | the state after `reset` is `AfterReset` |
| CookieCapture.ParsePartMeaning | scraper/cookie_capture.py:52-56 | a part is skipped iff its stripped text has no `=`; otherwise it splits at the first `=` into a stripped name and value |
| CookieCapture.FindCookieMeaning | scraper/cookie_capture.py:51-58 | missing iff no part names the cookie; otherwise the value of the first part that does |
| CookieCapture.FindCookieIn | scraper/cookie_capture.py:51-58 | the search loop returns the value of the first matching part, or none |
| CookieCapture.ExtractCookieFromHeader | scraper/cookie_capture.py:32-58 | `extract_cookie_from_header` as `ExtractCookie` |
| CookieCapture.ExtractCookieNone | scraper/cookie_capture.py:45-58 | an absent or empty header yields nothing; a header yields nothing iff no part names the cookie |
| CookieCapture.ExtractCookieExample | scraper/cookie_capture.py:49-56 | `HttpOnly; id=abc` yields `abc` for `id` |
| CookieCapture.ValidateCookieMeaning | scraper/cookie_capture.py:171-199 | valid iff the stripped cookie has at least 10 characters, none of them `\r`, `\n` or `\0` |
| CookieCapture.TrailingNewlineAccepted | scraper/cookie_capture.py:185-199 | a trailing newline is stripped before the check and so accepted |
| CookieCapture.InnerNewlineRefused | scraper/cookie_capture.py:194-197 | a newline inside the cookie is refused |
| CookieCapture.Method | scraper/cookie_capture.py:109-114 | webview iff preferred and available |
| CookieCapture.CaptureManualEffect | scraper/cookie_capture.py:201-218 | a valid cookie is stored stripped and passed to the callback once; an invalid one changes nothing |
| CookieCapture.CaptureKeepsValid | scraper/cookie_capture.py:201-218 | the stored cookie is always a valid one |
| CookieCapture.CookieCapture.constructor | scraper/cookie_capture.py:77-97 | nothing captured, no callback, no calls |
| CookieCapture.CookieCapture.SetCallback | scraper/cookie_capture.py:97 | installs or removes `on_cookie_captured` and nothing else |
| CookieCapture.CookieCapture.CaptureManual | scraper/cookie_capture.py:201-294 | the result and fields are `CaptureManualSpec` |
| CookieCapture.CookieCapture.GetMethod | scraper/cookie_capture.py:109-114 | the `method` property |
| Configuration.Merged | scraper/config.py:58-73 | the merged keys are exactly those of either side |
| Configuration.DeepMerge | scraper/config.py:58-73 | the key loop builds `Merged` without changing its inputs (values) |
| Configuration.MergeEmpty | scraper/config.py:65-73 | an empty override gives back the base |
| Configuration.MergeIntoEmpty | scraper/config.py:65-73 | an empty base gives back the override |
| Configuration.MergeKeepsBase | scraper/config.py:65-66 | a key the override does not mention keeps its base value |
| Configuration.MergeOverrides | scraper/config.py:67-72 | where either side is not a mapping, the override value wins |
| Configuration.MergeSelf | scraper/config.py:58-73 | merging a configuration over itself changes nothing |
| Configuration.MergeTwice | scraper/config.py:58-73 | applying the same override twice is applying it once |
| Configuration.GetSpec | scraper/config.py:173-193 | the dotted lookup, or the default |
| Configuration.Get | scraper/config.py:184-193 | the segment loop finds exactly `GetSpec` |
| Configuration.LookupAppend | scraper/config.py:187-191 | looking up `p + q` is looking up `p`, then `q` from there |
| Configuration.MergeLookupOverride | scraper/config.py:58-193 | a value the override holds at a path (reached through mappings) is the merged value there |
| Configuration.MergeLookupDefault | scraper/config.py:58-193 | a path whose first key is not overridden reads from the base |
| Configuration.LoadedMeaning | scraper/config.py:163-171 | no file gives the defaults; a file gives their merge, so user values win and unmentioned defaults stay; an empty file gives the defaults |
| Configuration.DefaultBaseUrl | scraper/config.py:21-193 | `get("urls.base_url")` on the defaults is the portal address |
| Configuration.GetSection | scraper/config.py:184-193 | `get` of a section name yields the whole section, or the default |
| Configuration.Config.constructor | scraper/config.py:139-147 | the path and the loaded data |
| Configuration.Config.Load | scraper/config.py:163-171 | the data becomes `Loaded` and the path is kept |
| Configuration.Config.Reload | scraper/config.py:240-249 | a given non-empty path replaces the old one, then the data is reloaded |
| Configuration.Config.SectionOf | scraper/config.py:195-228 | a section property is the named section, or an empty one |
| PdfConverter.TotalLenAppend | scraper/pdf_converter.py:293 | appending to one batch adds one item in total |
| PdfConverter.SplitIntoBatches | scraper/pdf_converter.py:277-295 | `n <= 0` gives `[items]`; otherwise `n` batches, item `i` at position `i / n` of batch `i % n`, every batch position filled by that rule, all items placed |
| PdfConverter.BalancedSizes | scraper/pdf_converter.py:286-293 | round-robin batch sizes differ by at most one, and batches past the item count are empty |
| PdfConverter.ConvertedFiles | scraper/pdf_converter.py:229-241 | the converted inputs are those whose conversion succeeded, in order |
| PdfConverter.ProcessBatch | scraper/pdf_converter.py:200-274 | the worker id, the success and failure counts, the ordered failed inputs, and the removed inputs when deletion is on |
| PdfConverter.CountsCoverBatch | scraper/pdf_converter.py:219-254 | `success_count + fail_count` is the batch size |
| PdfConverter.FailedFilesMeaning | scraper/pdf_converter.py:251-254 | an input is listed as failed iff a pair with that input failed |
| PdfConverter.BuildPairs | scraper/pdf_converter.py:352-363 | the pair-building loop yields `Kept` (see `KeptMeaning`); with `--skip-existing` the skipped count is the number of files whose PDF exists, without it zero, and skipped plus kept is the file count |
| PdfConverter.KeptMeaning | scraper/pdf_converter.py:355-363 | without `--skip-existing` pair `i` is file `i` with its PDF `output_dir/<stem>.pdf`; with it, exactly the files whose PDF does not exist are kept, and every kept pair comes from a file |
| PdfConverter.WorkerCount | scraper/pdf_converter.py:372-373 | `min(workers, total_files)` |
| PdfBackend.DetectAvailableBackends | scraper/pdf_backend.py:144-156 | exactly the installed backends, each once, wkhtmltopdf first |
| PdfBackend.DefaultBackendMeaning | scraper/pdf_backend.py:159-186 | the chosen backend is installed; a configured installed backend wins; otherwise wkhtmltopdf, then WeasyPrint; none iff neither is installed |
| PdfBackend.PreferenceIgnoresCase | scraper/pdf_backend.py:173-178 | a setting `WeasyPrint` selects WeasyPrint |
| PdfBackend.FindFrom | scraper/pdf_backend.py:257-266 | the next occurrence of a character at or after a position, or none |
| PdfBackend.TagEnd | scraper/pdf_backend.py:257-268 | the end of `<name[^>]*>` at the first case-insensitive `<name`, just after the next `>` |
| PdfBackend.TagFound | scraper/pdf_backend.py:255-258 | when the lower-cased text has `<name>`, the tag search succeeds |
| PdfBackend.InjectCssMeaning | scraper/pdf_backend.py:248-275 | no CSS keeps the content; with a `<head>` the style goes right after the end `TagEnd` finds for the first `<head…>` tag; with only `<html>` a new head goes right after the `<html…>` tag; otherwise the content is wrapped; the rest of the text is kept on both sides |
| PdfBackend.ConvertHtmlMeaning | scraper/pdf_backend.py:288-327 | with a backend given, success iff it is installed and renders the document; with none, success iff a default backend is resolved and renders it; success always means an installed backend rendered the document |
| PdfBackend.ConvertFileMeaning | scraper/pdf_backend.py:330-375 | a missing input fails; the input is deleted iff the conversion succeeded and deletion was asked |
| UpdateChecker.NormalizeVersion | scraper/update_checker.py:160-165 | the stripped text is the result, with one `v` in front when it had one |
| UpdateChecker.NormalizeOnce | scraper/update_checker.py:163-164 | only one `v` is removed |
| UpdateChecker.NormalizeExamples | scraper/update_checker.py:160-165 | ` v2.0.0 ` becomes `2.0.0`; `1.2.3` is kept |
| UpdateChecker.DigitsValueOfString | scraper/update_checker.py:170 | reading back the decimal text of `n` gives `n` |
| UpdateChecker.ParsePartsMeaning | scraper/update_checker.py:170 | the parts parse iff each is a non-empty digit run, and then to their values |
| UpdateChecker.ReleaseLessIrreflexive | scraper/update_checker.py:170 | no release is older than itself |
| UpdateChecker.ReleaseLessAsymmetric | scraper/update_checker.py:170 | of two releases at most one is older |
| UpdateChecker.TrailingZero | scraper/update_checker.py:170 | `1.0` and `1.0.0` are the same release |
| UpdateChecker.IsNewerStrict | scraper/update_checker.py:167-173 | a version is never newer than itself, and of two versions at most one is newer |
| UpdateChecker.NumericNotTextual | scraper/update_checker.py:170 | `1.10.0` is newer than `1.9.0` |
| UpdateChecker.ParseThree | scraper/update_checker.py:170 | `a.b.c` with three digit runs parses to the three values |
| UpdateChecker.CheckMeaning | scraper/update_checker.py:73-133 | on success the normalised tag and current version, the release fields, and the update flag iff newer; on any error the raw current version twice, the releases page and no update |
| Gui.ResolveMeaning | scraper/gui.py:504-522 | an absolute setting is kept; otherwise the result lies directly under the project directory, named by the setting, `downloads_<village>` or `downloads` |
| Gui.ResolveAbsolute | scraper/gui.py:504-522 | with an absolute project directory the result is absolute |
| Gui.ResolveStable | scraper/gui.py:511-517 | resolving the resolved directory again gives it back |
| Gui.VillageDirsDistinct | scraper/gui.py:519-521 | two villages get two different default directories |
| Gui.ProgressFileMeaning | scraper/gui.py:538-539 | `<downloads_dir>/progress_<village or unknown>.json` |
| Gui.ProgressFileDistinct | scraper/gui.py:538-539 | different villages never share a progress file |
| Gui.MigrateLayout | scraper/gui.py:477-490 | the in-place pop and assignment of the migration yield `Migrated` |
| Gui.MigratedMeaning | scraper/gui.py:477-490 | no `save_path` passes unchanged; the migration fails iff a field it reads is not text; `save_path` is always removed and every other key but `downloads_dir` kept |
| Gui.MigratedDownloadsDir | scraper/gui.py:478-490 | save + bare folder joins; save alone becomes `downloads_dir`; otherwise `downloads_dir` is unchanged |
| Gui.MigrationIdempotent | scraper/gui.py:477-490 | a migrated configuration needs no more migration |
| Gui.LoadedVarsMeaning | scraper/gui.py:468-498 | loading keeps the set of variables, sets each from the migrated file when present, and loading twice is loading once |
| Gui.SaveLoadRoundTrip | scraper/gui.py:454-494 | what `_save_config` writes, `_load_config` restores exactly |
| Gui.CountsAsProcessed | scraper/gui.py:591-638 | a line is counted iff it takes the `Saved:` or the `No record found` branch |
| Gui.SavedLineCounts | scraper/gui.py:615-617 | the scraper's `Saved: <file> (<n> bytes)` line counts one khewat |
| Gui.NoRecordLineCounts | scraper/gui.py:628-630 | the scraper's `No record found for khewat <k>` line counts one khewat |
| Gui.KhewatLineNotCounted | scraper/gui.py:608-612 | the `Processing khewat <k>...` line only updates the status |
| Gui.SummaryLineNotCounted | scraper/gui.py:593-606 | a `Completed: c, Failed: f, Pending: p` summary is read as progress and not counted |
| Gui.SummaryMatches | scraper/gui.py:584-606 | a line holding `Completed: c, Failed: f, Pending: p` with digit runs, after any prefix, matches the summary pattern |
| Gui.BareSavedNotCounted | scraper/gui.py:588-615 | a bare `Saved:` line is not counted, since `\s+(.+)` needs text after the blank |
| Gui.ClampWorkers | scraper/gui.py:758-760 | `max(3, min(8, workers))` lies in 3..8 and keeps any count already in range |
| Gui.StartMeaning | scraper/gui.py:720-769 | a launch needs no running process, a cookie, a village code and a successful patch; it passes the stripped cookie and range, adds `--workers` (3..8) iff concurrency is on, and chains conversion iff enabled |
| Gui.JamabandiGui.constructor | scraper/gui.py:66-86 | the defaults, then the saved configuration, with zero counters |
| Gui.JamabandiGui.LoadConfig | scraper/gui.py:468-498 | the variables after `_load_config` are `LoadedVars` of the old ones |
| Gui.JamabandiGui.ParseProgressLine | scraper/gui.py:591-638 | the done counter rises by one iff the line counts as processed; nothing else changes |
| Gui.JamabandiGui.StartScraping | scraper/gui.py:720-769 | the outcome is `StartOutcomeOf`; a launch sets `_scrape_total = end - start + 1` and resets the count; a refusal changes nothing |

## Left out

- Network, HTML parsing and SSL: `requests.Session`, `_make_postback` and BeautifulSoup are not modelled. A reply is a record, and hidden inputs are a map from name to optional value. The server is an oracle that gives one reply per khewat and request, so a worker run handles each khewat at most once.
- `JamabandiHTTPScraper.run`, `main`'s printing and `auto_convert_to_pdf`: these are sequencing and output around the modelled parts. The process-pool argument mismatch in `auto_convert_to_pdf` is outside the model.
- `run_concurrent`'s thread pool, the tracker's lock and the `random.uniform` and `time.sleep` delays: the model is sequential, and one worker is modelled.
- Saving and loading the progress file (`save`, `load`, `set_config`), `debug_form.html` and the writes of downloads: file I/O. A tracker built here never has a loaded file, so `Valid` (a strictly ascending completed list) is not checked against such a file.
- HttpScraper.SplitContiguous: requires at least one worker; `main` clamps the count to 1..8, so `num_workers <= 0` never reaches it.
- The Selenium `JamabandiScraper`: browser driving; only its progress tracker is modelled.
- Unicode: `str.lower` is modelled on ASCII letters and `\d`/`\s` on ASCII digits and the Python whitespace set; Unicode case folding is not modelled.
- RateLimiting.InitialBounded: assumes `0 <= min_delay <= max_delay`; `NegativeMinimumEscapes` shows why the lower bound is needed.
- RateLimiting.AfterResponseBounded: assumes the same limits.
- RateLimiting.RecordAllBounded: assumes the same limits.
- Python floats are modelled as exact reals, so float rounding in the limiter is not modelled.
- RateLimiting.RateLimiter.Wait: the sleep itself and the lock are left out; `now` is a parameter.
- Statistics text: `format_stats` and the `:.1f` float formatting of speeds are not modelled. `_format_bytes` is modelled with round-half-even tenths. `window_seconds` and the clock are parameters.
- Statistics.EtaParts: `int(seconds % 60)` on floats is modelled as the truncated remainder of an exact real.
- The webview cookie capture, `get_manual_instructions`, `login_url` and `cookie_name`: UI text and browser plumbing.
- YAML parsing, the `Config` singleton and `_find_config_file`: the parsed document is a parameter. `_SectionProxy`'s `Path` coercion is also out.
- `clean_html`, the WeasyPrint and pdfkit renderers, the shared progress counter, `_init_worker` and the worker-crash handling: rendering is an oracle, and `unlink` errors are not modelled.
- PdfBackend.ConvertHtmlToPdf: the unknown-backend branch cannot occur with the two-valued backend type.
- PdfBackend.TagEnd: models `<head[^>]*>` as the first `<head` followed by the next `>`. Like the regex, it therefore also matches `<header>`.
- Version ordering beyond dotted numeric releases (pre-releases, epochs, local versions): `packaging.version` is not available. Such versions fall back to the string comparison. `check_async` is a thread and is not modelled.
- GUI widgets, `_toggle_concurrent`, the progress-bar percentages and labels, the subprocess launch and `_save_config`'s file write: UI and I/O.
- `_patch_main_http_config`: a regex rewrite of a source file, modelled only by its success flag. `sys.executable` and the script path are omitted from the launch arguments.
- `_start_pdf_conversion` and `_on_scraping_complete`: only whether the conversion is chained is modelled.
- Path handling: `pathlib` normalisation is not modelled; paths are joined with `/`.
- Non-object GUI settings files: an unparsable file, or one whose JSON is not an object, is caught by `_load_config`'s handler and leaves every setting at its default.
- RateLimiting.RateLimiter.constructor: requires `windowSize >= 1`; in Python `window_size = 0` makes every success divide by zero (rate_limiter.py:99-100) and a negative one is refused by `deque`, so neither has a behaviour worth modelling.
- `SessionManager.wait_for_valid_session` (session_manager.py:171-186): a blocking wait on a threading event with a timeout; concurrency and the clock are not modelled.
- Configuration.Loaded: the parsed YAML document is an optional mapping; a document that is a non-empty list or scalar makes `_deep_merge` raise `AttributeError` (config.py:66), and that crash is not modelled.
- Gui.SavedLineCounts: states the count for file names free of capital `C`, capital `P` and newlines. The scraper's `nakal_khewat_NNNN` names meet this condition.
