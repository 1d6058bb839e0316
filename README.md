# InstaBrute, modelled in Dafny

InstaBrute is a Python command-line tool that tries passwords against the
Instagram login endpoint. It is built from a handful of small stateful
components, and this project models each of them and proves what it
promises:

- **The dispatcher** (`request_manager.py`). A sliding-window rate limiter
  keeps the timestamps of granted requests. It prunes the old ones, grants
  or denies, and reports how long until the oldest one ages out.
  `send_request` is a retry loop of at most three POSTs. It honours
  `429`/`Retry-After` and backs off exponentially after transport errors.
- **The proxy pool** (`proxy_manager.py`). It normalises addresses and parses
  API or file listings. It keeps statistics per proxy and rotates a FIFO
  queue gated by a cooldown. Health checks filter the list, and selection
  picks the best proxy by a lexicographic key.
- **The CSRF token cache** (`csrf_manager.py`). One entry with a strict
  time-to-live, a fetch on a miss, a status-only validation probe and a
  bounded `retry_request` loop.
- **The Tor manager** (`tor_manager.py`). Identity changes are refused inside
  a 30-second cooldown, and the timestamp is committed only on success.
  Keeping the service alive is a fixed probe/start/restart sequence.
- **The orchestration** (`brute_force.py`):
  - the percent-encoded password field;
  - classifying a login response by ordered markers;
  - the progress counters;
  - the timeout-checked dictionary and random loops;
  - the strategy dispatch;
  - the contiguous split of a password list among threads.
- **The operation monitor** (`monitoring.py`). Request counters with their
  sum invariant, error buckets, and the integer checks of
  `verify_operation`.
- **The front end** (`instabrute.py`). `validate_arguments` collects every
  problem rather than the first, and `main` chooses the strategy.

Modelling conventions:

- **Time.** The clock is an integer `now` supplied by the caller, in
  seconds.
- **Outside world.** Everything outside the process becomes an input:
  - network answers are values (`ApiReply`, `PageReply`, `PostOutcome`,
    `HealthOutcome`);
  - whether a file exists is a boolean;
  - a shell command or control-port exchange is a boolean;
  - a sequence of answers is an oracle `nat -> X` indexed by call number.
- **Shape of the model.** Components whose fields the source updates in
  place are classes (`RateLimiter`, `RequestManager`, `ProxyManager`,
  `CsrfManager`, `TorManager`, `OperationMonitor`, `BruteForcer`). Each
  method is proved against a specification function, and the properties are
  lemmas about those functions.
- **Module layout.**
  - One module per Python file: `RequestManager`, `ProxyManager`,
    `CsrfManager`, `TorManager`, `BruteForce`, `Monitoring`, `InstaBrute`.
  - Three shared modules: `Options`, `Text` (Python's `strip`, `in` and
    `str(n)`) and `UrlQuote` (`urllib.parse.quote` and `unquote` over UTF-8).

## Model

| member | source | states |
|---|---|---|
| Text.TrimLeft | proxy_manager.py:45 | the leading part `strip` drops is whitespace, the rest is a suffix that does not start with whitespace |
| Text.TrimRight | proxy_manager.py:45 | the trailing part `strip` drops is whitespace, the rest is a prefix that does not end with whitespace |
| Text.Strip | proxy_manager.py:45 | `s.strip()` neither starts nor ends with whitespace, and is empty iff `s` is all whitespace |
| Text.StripIdempotent | proxy_manager.py:45 | stripping a stripped line changes nothing |
| Text.Contains | brute_force.py:86-93 | `sub in s` holds iff `sub` is a prefix of some suffix of `s` |
| Text.NatToString | brute_force.py:34-35 | the timestamp in the field is decimal digits without a leading zero |
| Text.NatToStringValue | brute_force.py:34-35 | those digits denote the timestamp again, so different timestamps give different texts |
| UrlQuote.Utf8Char | brute_force.py:35 | a character becomes one to four UTF-8 bytes, one byte exactly for ASCII |
| UrlQuote.Utf8RoundTrip | brute_force.py:35 | strict UTF-8 decoding gives back the encoded string |
| UrlQuote.QuoteByte | brute_force.py:35 | a byte in the unreserved set or `/` is kept as itself, any other byte becomes `%` and two hex digits |
| UrlQuote.QuoteBytes | brute_force.py:35 | the percent-encoding of any bytes is pure ASCII |
| UrlQuote.UnquoteQuoteBytes | brute_force.py:35 | percent-decoding restores the exact bytes |
| UrlQuote.QuoteRoundTrip | brute_force.py:35 | `unquote(quote(s)) == s` for every string |
| UrlQuote.QuoteKeepsSafe | brute_force.py:35 | a string of ASCII letters, digits, `_`, `.`, `-`, `~` and `/` is its own encoding |
| UrlQuote.QuoteAppend | brute_force.py:35 | quoting distributes over concatenation |
| UrlQuote.Quote | brute_force.py:35 | `quote(s)` is pure ASCII and never shorter than `s`; its inverse is `Unquote`, by `QuoteRoundTrip` |
| UrlQuote.Unquote | brute_force.py:35 | the inverse of `quote`, by `QuoteRoundTrip`; a string without `%` is its own decoding |
| UrlQuote.UnquotePlain | brute_force.py:35 | without a `%`, every character is decoded to its own UTF-8 bytes |
| RequestManager.KeepNewer | request_manager.py:19 | pruning never lengthens the list |
| RequestManager.KeepNewerMembers | request_manager.py:19 | exactly the timestamps strictly newer than `now - time_window` survive pruning |
| RequestManager.KeepNewerSorted | request_manager.py:19 | pruning keeps an ascending list ascending |
| RequestManager.KeepNewerTwice | request_manager.py:19 | pruning at an earlier cutoff and then at a later one equals pruning once at the later one |
| RequestManager.Admit | request_manager.py:17-23 | after pruning, a grant happens iff fewer than `max_requests` remain; a grant appends exactly `now`; a denial appends nothing |
| RequestManager.Delay | request_manager.py:25-28 | `get_delay` is 0 for an empty list, and lies in `(0, time_window]` when the oldest entry is inside the window |
| RequestManager.AdmitKeepsOrder | request_manager.py:17-23 | with a clock that does not go back, the stored list stays ascending, at most `now` and inside the window |
| RequestManager.DelayAfterDenial | request_manager.py:20-28 | right after a denial at `now`, `get_delay` lies in `(0, time_window]` |
| RequestManager.NextConsistent | request_manager.py:17-23 | one more call at a later time keeps the stored list equal to the grants inside the window, ascending and at most `max_requests` long |
| RequestManager.RunInvariant | request_manager.py:11-23 | along any non-decreasing sequence of call times, every limiter state satisfies that invariant |
| RequestManager.NextWithinBound | request_manager.py:17-23 | one more call keeps the number of grants in any window-long interval within `max_requests` |
| RequestManager.ThroughputBound | request_manager.py:11-23 | for non-decreasing call times, at most `max_requests` grants fall in any interval `(t - time_window, t]` |
| RequestManager.DefaultThroughput | request_manager.py:38 | the dispatcher's own limiter grants at most 30 requests in any 60-second interval |
| RequestManager.RateLimiter.constructor | request_manager.py:12-15 | a new limiter stores its bounds and an empty list |
| RequestManager.RateLimiter.AllowRequest | request_manager.py:17-23 | the decision and the new stored list are those of `Admit`, and the list stays within `max_requests` |
| RequestManager.RateLimiter.GetDelay | request_manager.py:25-28 | on the limiter's stored list: 0 when it is empty, and within `(0, time_window]` while its oldest entry is inside the window |
| RequestManager.HandleRateLimit | request_manager.py:55-61 | only status 429 counts as rate limiting; the wait is `Retry-After`, or 30 when the header is absent; a header `int()` rejects raises |
| RequestManager.Pow2 | request_manager.py:88 | the backoff `2 ** k` is at least 1 |
| RequestManager.Retrying | request_manager.py:63-90 | a call makes between 1 and 3 POSTs, and once the budget is spent it returns `None` with no further sleep |
| RequestManager.RetryingStep | request_manager.py:67-90 | a retried POST contributes its sleep and one POST before the rest of the call; any other POST ends the call |
| RequestManager.RetryAdvance | request_manager.py:77-88 | one 429 or transport error extends the sleeps done so far by its own sleep |
| RequestManager.RetryEnds | request_manager.py:77-90 | a POST that is not retried ends the call with its own outcome |
| RequestManager.FirstFinalOutcomeWins | request_manager.py:77-82 | the first POST that is neither a 429 nor a transport error decides the call: a non-429 response is returned, anything else escapes, after the sleeps of the retried POSTs before it |
| RequestManager.GivesUpWhenAllRetryable | request_manager.py:67-90 | when every POST is retried, the call makes exactly the remaining POSTs and returns `None` |
| RequestManager.ThreeTransportErrors | request_manager.py:84-90 | three transport errors sleep 2 and then 4 seconds, skip the sleep after the third, and give `None` |
| RequestManager.ThreeRateLimitsWithoutHeader | request_manager.py:55-79 | three 429 answers without `Retry-After` wait 30 seconds each and give `None` |
| RequestManager.AnyOtherStatusIsReturned | request_manager.py:77-82 | a first answer with any status other than 429 is returned at once, after one POST |
| RequestManager.ContextManagerLosesResponses | request_manager.py:43-82 | as written, a call whose first answer is a non-429 response raises without posting, while the intended loop returns that response after one POST |
| RequestManager.SendAsWritten | request_manager.py:62-74 | as written, every call raises before its first POST and sleeps no retry backoff; the limiter gate at request_manager.py:67-71 still runs first, so `allow_request` may have recorded the call or `get_delay` been slept, which this result does not carry |
| RequestManager.Gate | request_manager.py:17-28 | the gate at the top of an attempt leaves the list `allow_request` leaves, and the clock never goes back |
| RequestManager.GateWaitsForOldest | request_manager.py:68-71 | a grant does not wait; after a denial the attempt waits until the oldest stored entry leaves the window, so its send time is that entry plus `time_window` |
| RequestManager.Pause | request_manager.py:77-88 | a retried POST moves the clock by its own positive sleep, by nothing when it has none; a POST that is not retried adds nothing |
| RequestManager.Before | request_manager.py:67-88 | the clock never goes back across the attempts of a call, and the first attempt starts from the call's own list and time |
| RequestManager.GateOf | request_manager.py:67-76 | no POST of a call is sent before the call starts |
| RequestManager.BeforeStep | request_manager.py:67-88 | after a retried POST the next attempt starts from that POST's gate, at its send time plus its pause |
| RequestManager.BeforeKeepsOrder | request_manager.py:67-88 | across the attempts of a call the limiter's list stays ascending, never holds a time after the clock, and stays within `max_requests` |
| RequestManager.GateKeepsOrder | request_manager.py:17-28 | one gate keeps the list ascending, not after the clock, and within `max_requests` |
| RequestManager.RequestManager.constructor | request_manager.py:31-38 | `last_request_time` starts at 0, with a fresh limiter of 30 requests per 60 seconds |
| RequestManager.RequestManager.Throttle | request_manager.py:68-71 | the limiter is consulted at the top of the attempt; its new list and the time the attempt resumes are those of `Gate`, the limiter's delay being slept after a denial |
| RequestManager.RequestManager.SendRequest | request_manager.py:63-90 | the outcome, the retry sleeps `waits` and the number of POSTs are those of `Retrying`; the limiter is consulted before every POST and its final list is the one `GateOf` gives for the last POST, the limiter's delays moving the clock; `last_request_time` becomes that POST's send time when a response is returned and is unchanged otherwise |
| RequestManager.RequestManager.Answer | request_manager.py:76-88 | a 429 or a transport error is retried with the sleep of `Backoff`; any other POST ends the call with its own outcome; `last_request_time` is set to the send time exactly when a response is returned |
| ProxyManager.ReformatProxy | proxy_manager.py:64-67 | `http://` is prefixed exactly when the address starts with neither scheme; otherwise the address is unchanged |
| ProxyManager.ReformatIdempotent | proxy_manager.py:64-67 | reformatting twice is reformatting once |
| ProxyManager.ParseApiLines | proxy_manager.py:45 | every address of the API listing is stripped and non-blank |
| ProxyManager.NonEmptyImages | proxy_manager.py:45 | the comprehension lists no more entries than there are lines |
| ProxyManager.NonEmptyImagesMembers | proxy_manager.py:45 | the comprehension lists every non-empty image, only images of lines, and nothing iff every image is empty |
| ProxyManager.NonEmptyImagesAppend | proxy_manager.py:45 | the comprehension over two blocks of lines is the concatenation of the two comprehensions |
| ProxyManager.StrippedImages | proxy_manager.py:45 | what the listing keeps is already stripped and non-blank |
| ProxyManager.ParseApiMembers | proxy_manager.py:45 | every non-blank line contributes its stripped text, nothing else is listed, and the listing is empty iff every line is blank |
| ProxyManager.ParseApiOne | proxy_manager.py:45 | one line gives its stripped text, or nothing when it is blank |
| ProxyManager.ParseApiAppend | proxy_manager.py:45 | the listing of two blocks of lines is the first block's listing followed by the second's, so order is kept |
| ProxyManager.ParseFileLines | proxy_manager.py:76 | every address read from the file carries a scheme |
| ProxyManager.MapReformat | proxy_manager.py:76 | each address is reformatted in place, in order |
| ProxyManager.FileIsReformattedApi | proxy_manager.py:45-76 | both parsers keep the same lines in the same order; the file parser reformats each one |
| ProxyManager.AfterApi | proxy_manager.py:41-50 | the list is replaced by the parsed listing on status 200, and unchanged on any other status or an exception |
| ProxyManager.InitialProxies | proxy_manager.py:114-124 | the file is consulted only when the API left the list empty |
| ProxyManager.Recorded | proxy_manager.py:102-112 | exactly one counter rises by one; latency is recorded only on success; `last_used` becomes `now` |
| ProxyManager.RecordAll | proxy_manager.py:138-156 | after the health checks the statistics cover every checked proxy and the previous ones, and a proxy that was not checked keeps its record |
| ProxyManager.RecordAllStep | proxy_manager.py:138-156 | checking one more proxy updates only its record, on top of the earlier checks |
| ProxyManager.RecordAllUnlisted | proxy_manager.py:152-156 | an unchecked proxy keeps its record, or stays without one |
| ProxyManager.RecordAllListedOnce | proxy_manager.py:138-156 | a proxy listed once ends with its previous record updated by its own check alone |
| ProxyManager.Kept | proxy_manager.py:158-165 | the filtered list is a sub-multiset of the list |
| ProxyManager.KeptAll | proxy_manager.py:158-165 | validation drops nothing iff every health check passed |
| ProxyManager.KeptNone | proxy_manager.py:158-165 | validation keeps nothing iff every health check failed |
| ProxyManager.FirstStop | proxy_manager.py:88-98 | every queued proxy before the stop point is in cooldown, and the one at it is not |
| ProxyManager.FirstStopIs | proxy_manager.py:88-98 | the stop point is the unique position with all proxies before it in cooldown and itself eligible |
| ProxyManager.RotationMultiset | proxy_manager.py:92-97 | skipping and requeueing keeps every queued proxy except the one taken out |
| ProxyManager.RotateStep | proxy_manager.py:92-97 | taking the head of the rotated queue and requeueing it rotates the queue by one more |
| ProxyManager.KeyOrder | proxy_manager.py:173-179 | the cross-multiplied key order is transitive through a not-greater step |
| ProxyManager.Valid | proxy_manager.py:169 | the valid list holds only valid listed proxies, and is empty iff no proxy is valid |
| ProxyManager.ValidContains | proxy_manager.py:169 | every listed proxy that passes the predicate is in the valid list |
| ProxyManager.MinFrom | proxy_manager.py:173-179 | Python's `min` over the key returns the first minimal proxy, or a `KeyError` for the first one without statistics; it never returns nothing |
| ProxyManager.BestProxy | proxy_manager.py:168-181 | `None` iff no proxy is valid; otherwise the first valid proxy with a minimal key, or a `KeyError` for the first valid proxy without statistics |
| ProxyManager.ProxyManager.GetBestProxy | proxy_manager.py:168-181 | on the manager's list and statistics: `None` iff no listed proxy is valid; otherwise a valid listed proxy with statistics, or the `KeyError` of a valid listed proxy without them; its minimality is `BestProxyIsFirstMinimum` |
| ProxyManager.BestProxyIsFirstMinimum | proxy_manager.py:168-181 | the chosen proxy is listed and valid, and no valid proxy has a strictly smaller key |
| ProxyManager.RatioTieUsesLatency | proxy_manager.py:175-178 | failure ratios compare by value (1/2 ties 2/4), and latency breaks the tie |
| ProxyManager.ProxyManager.constructor | proxy_manager.py:21-34 | a new pool has no proxies, statistics or queue, and a 30-second default cooldown |
| ProxyManager.ProxyManager.FetchProxiesFromApi | proxy_manager.py:36-50 | without an API address nothing changes; otherwise the list becomes `AfterApi` of the reply |
| ProxyManager.ProxyManager.FetchProxiesFromNewApi | proxy_manager.py:52-62 | the list becomes `AfterApi` of the reply |
| ProxyManager.ProxyManager.LoadProxiesFromFile | proxy_manager.py:69-79 | without a file name nothing changes; a missing file leaves the list as it was; otherwise the list is the parsed file |
| ProxyManager.ProxyManager.InitializeProxies | proxy_manager.py:114-127 | the list is `InitialProxies`, and the queue grows by exactly that list, in order, so by nothing when it is empty |
| ProxyManager.ProxyManager.Enqueue | proxy_manager.py:126-127 | the proxies are put on the queue in list order |
| ProxyManager.ProxyManager.GetRandomProxy | proxy_manager.py:81-85 | `None` iff there are no proxies; otherwise a listed proxy, the same for both schemes |
| ProxyManager.ProxyManager.GetNextProxy | proxy_manager.py:88-100 | an empty queue or a queue with every proxy in cooldown gives `None` with the queue as it was; otherwise the first eligible proxy is returned and the proxies skipped before it move, in order, to the back |
| ProxyManager.ProxyManager.UpdateProxyStats | proxy_manager.py:102-112 | only the record of `proxy` changes, created as zero when absent, and it becomes `Recorded` |
| ProxyManager.ProxyManager.CheckProxyHealth | proxy_manager.py:138-150 | any response is recorded as a success with its latency before its status is compared with 200; an exception is recorded as a failure |
| ProxyManager.ProxyManager.ValidateAllProxies | proxy_manager.py:152-166 | the statistics are those of all health checks in list order, and the list keeps exactly the healthy proxies, in order |
| ProxyManager.ProxyManager.CheckAll | proxy_manager.py:155-156 | one health check per proxy, in order; the results line up with the proxies |
| ProxyManager.ProxyManager.KeepValid | proxy_manager.py:158-165 | the loop over proxies and results keeps exactly the healthy proxies, in order |
| CsrfManager.Lookup | csrf_manager.py:51-59 | the cached token is offered iff an entry exists and is strictly younger than the time-to-live |
| CsrfManager.CachedFor | csrf_manager.py:55 | a token cached at `t` is offered exactly during `[t, t + ttl)` |
| CsrfManager.ExpiryIsFinal | csrf_manager.py:51-59 | an expired entry is not removed but stays expired later on |
| CsrfManager.Fetched | csrf_manager.py:29-35 | a fetch yields a token only on status 200 with a non-empty `csrftoken` cookie |
| CsrfManager.ValidateCsrfToken | csrf_manager.py:65-77 | the token is valid iff the probe answers with status 200; an exception gives false |
| CsrfManager.RetryRequest | csrf_manager.py:79-87 | at most `retries` calls; the first call that does not raise a request exception ends the loop with its value or lets its exception escape; every caught exception is followed by one sleep of `delay`, and a negative `delay` makes that sleep raise, which escapes after the first caught exception; `AllFailed` (the final `None`) iff every one of the `retries` calls raised a request exception and every sleep completed, while `None` returned by the function itself is a `Returned` |
| CsrfManager.CsrfManager.constructor | csrf_manager.py:12-17 | the time-to-live is the given minutes times 60, and the cache is empty |
| CsrfManager.CsrfManager.CacheToken | csrf_manager.py:44-48 | the whole entry is replaced by `(token, now)` |
| CsrfManager.CsrfManager.GetCachedToken | csrf_manager.py:51-59 | the cached token is offered iff there is an entry strictly younger than the time-to-live |
| CsrfManager.CsrfManager.GetCsrfToken | csrf_manager.py:19-42 | a valid cached token is returned without a fetch and without touching the cache; otherwise the fetch result is returned, and the cache changes only when that yields a token |
| CsrfManager.FetchThenHit | csrf_manager.py:19-35 | a call within 15 minutes of a successful fetch is served from the cache without a fetch |
| TorManager.Rotate | tor_manager.py:23-46 | a change happens iff the interval has passed and the command succeeds; only then is the timestamp set to `now` |
| TorManager.ChangesAreSpaced | tor_manager.py:23-32 | successive identity changes are at least the interval apart |
| TorManager.FailureKeepsEligibility | tor_manager.py:28-32 | a failed command leaves the timestamp alone, so the next request is as eligible as before |
| TorManager.TorManager.constructor | tor_manager.py:11-14 | the timestamp is the creation time and the interval is 30 |
| TorManager.TorManager.ChangeIdentity | tor_manager.py:23-32 | the command runs iff the interval has passed; the result and the new timestamp are those of `Rotate` |
| TorManager.TorManager.ChangeIdentityViaControlPort | tor_manager.py:34-46 | the control port is contacted iff the interval has passed; the result and the new timestamp are those of `Rotate` |
| TorManager.TorManager.EnsureTorRunning | tor_manager.py:48-56 | the commands issued are those of `Issued` for the probe's and the first status check's outcomes; the result is the second status check |
| TorManager.IssuedInOrder | tor_manager.py:48-56 | in those commands a start appears iff the process probe fails and a restart iff the first status check fails, each at most once; they begin with the probe and end with a status check |
| TorManager.TorManager.RestartTorIfNeeded | tor_manager.py:97-101 | a restart is issued iff the status check fails |
| TorManager.FreshManagerWaits | tor_manager.py:11-26 | a new manager refuses every change during its first 30 seconds |
| Monitoring.StatusAt | monitoring.py:64-76 | "Not started" iff there is no start time; a `ZeroDivisionError` from the averages iff it started but no sample was taken; otherwise the running time is the elapsed time modulo a day, with the counters as they are |
| Monitoring.Verify | monitoring.py:78-93 | raises iff the status raises; verification fails iff the running time is positive and either no request was sent or no thread is active |
| Monitoring.VerifyBeforeFirstSecond | monitoring.py:64-93 | a monitor that has not started, or started under a second ago, verifies, except that a started monitor with no sample raises `ZeroDivisionError` |
| Monitoring.RunningTimeWrapsDaily | monitoring.py:68 | the running time drops whole days, so an idle sampled monitor fails after one second but verifies again at exactly one day |
| Monitoring.AddError | monitoring.py:95-105 | one entry is appended to the bucket of `error_type`, which is created if needed; other buckets are unchanged |
| Monitoring.AddErrorCounts | monitoring.py:95-105 | every `log_error` raises the total number of logged entries by exactly one |
| Monitoring.OperationMonitor.constructor | monitoring.py:11-25 | all counters start at zero, no start time, not active, so `requests_sent == successful + failed` |
| Monitoring.OperationMonitor.StartMonitoring | monitoring.py:27-29 | monitoring becomes active with the start time `now` |
| Monitoring.OperationMonitor.StopMonitoring | monitoring.py:37-39 | monitoring becomes inactive; the report is built iff monitoring had started and the sampler has taken at least one reading, which is exactly when `get_current_status` gives a running status (a `KeyError` on `running_time` otherwise, or the `ZeroDivisionError` of the averages) |
| Monitoring.OperationMonitor.Sample | monitoring.py:41-54 | one pass of the sampling loop adds one CPU and one memory reading and stores the thread count |
| Monitoring.OperationMonitor.GetCurrentStatus | monitoring.py:64-76 | on the monitor's counters: not started iff no start time, raising iff started with no sample, otherwise the running time and counters |
| Monitoring.OperationMonitor.VerifyOperation | monitoring.py:78-93 | raises iff started with no sample; fails iff the running time is positive and no request was sent or no thread is active |
| Monitoring.StopWithoutSample | monitoring.py:27-75 | a monitor started and stopped before its sampler ran fails to report, as on the path of `brute_force` (brute_force.py:115 to 211) when no sample was scheduled in between |
| Monitoring.StopAfterSample | monitoring.py:27-75 | one sample is enough for the report to be built |
| Monitoring.OperationMonitor.LogRequest | monitoring.py:56-62 | `requests_sent` rises by one, and exactly one of successes or failures rises, chosen by the flag, which keeps the sum invariant |
| Monitoring.OperationMonitor.LogError | monitoring.py:95-106 | the error map becomes `AddError` of the old one |
| BruteForce.EncodePassword | brute_force.py:33-35 | the field is ASCII and decodes back to `#PWD_INSTAGRAM_BROWSER:0:<ts>:<password>` |
| BruteForce.EncodedLayout | brute_force.py:33-35 | the field is `%23`, the tag `PWD_INSTAGRAM_BROWSER` as it is, `%3A0%3A`, the timestamp's digits, `%3A`, and the quoted password |
| BruteForce.PrefixQuoted | brute_force.py:35 | for an upper-case tag such as `PWD_INSTAGRAM_BROWSER`, `#<tag>:0:` quotes to `%23<tag>%3A0%3A` |
| BruteForce.HashQuoted | brute_force.py:35 | `#` is quoted as `%23` |
| BruteForce.ColonQuoted | brute_force.py:35 | `:` is quoted as `%3A` |
| BruteForce.QuoteJoined | brute_force.py:35 | the prefix quotes piece by piece |
| BruteForce.SplitAtColon | brute_force.py:35 | after a fixed prefix the digits end at the first colon, so the timestamp and the password can be read back uniquely |
| BruteForce.EncodingIsInjective | brute_force.py:33-35 | equal fields come from the same timestamp and the same password |
| BruteForce.Classify | brute_force.py:86-96 | markers are tested in the order authenticated, checkpoint, spam, and exactly one verdict fires |
| BruteForce.AuthenticationOutranksOthers | brute_force.py:86-96 | a body with the authenticated marker is authenticated whatever else it carries |
| BruteForce.PathOf | brute_force.py:77-105 | an exception takes the handler; `None` takes the no-match path; a response takes the path of its verdict |
| BruteForce.PathAsWritten | brute_force.py:84-105 | as written, every response takes the exception path, and only `None` takes the no-match path |
| BruteForce.AuthenticatedResponseLost | brute_force.py:86-89 | as written, a body reporting a successful login ends on the exception path |
| BruteForce.DictionaryAttack | brute_force.py:154-168 | a `DictionaryRun`: passwords are tried in order, the clock is read before each one and every login started within `timeout`; the first success ends the loop with its index; without one the loop ends at the end of the list or at the reading past the timeout |
| BruteForce.RandomAttack | brute_force.py:170-182 | a `RandomRun`: every login follows a reading less than `timeout` after the start, the first success ends the loop with its index, and otherwise the first reading at or past the timeout ends it |
| BruteForce.DictionaryAttackAsWritten | brute_force.py:157-165 | as written, the first password is reported as found whenever the list is non-empty and time remains |
| BruteForce.RandomAttackAsWritten | brute_force.py:173-178 | as written, the random loop reports its first password as found whenever time remains at the first check, and makes no login otherwise |
| BruteForce.HybridAttack | brute_force.py:184-187 | the dictionary routine is a `DictionaryRun`; then the random routine is a `RandomRun` even after a success, its logins numbered on from the dictionary's and its clock readings on from the dictionary's last one, which is one past the last login after a timeout |
| BruteForce.HybridContinuesAfterSuccess | brute_force.py:184-187 | a password found in the dictionary is followed by at least one random login when time remains, and that login is the next one |
| BruteForce.HybridStopsAfterTimeout | brute_force.py:154-187 | a dictionary routine stopped by the timeout is followed by no random login |
| BruteForce.Route | brute_force.py:195-206 | multi-thread iff `threads > 1` with a non-empty list; else dictionary iff DICTIONARY with a non-empty list; else random iff RANDOM; else hybrid, which raises without a list |
| BruteForce.Chunk | brute_force.py:224-228 | the first `threads - 1` chunks have `len // threads` passwords, and the last takes the remainder |
| BruteForce.Chunks | brute_force.py:224-228 | the first `i` chunks are `i` in number |
| BruteForce.ChunksAreChunks | brute_force.py:224-228 | the `j`-th of the first `i` chunks is chunk `j` |
| BruteForce.ChunkSlice | brute_force.py:224-228 | chunk `k` starts where the first `k` chunks end and ends where the first `k + 1` end |
| BruteForce.ChunksCover | brute_force.py:224-228 | the first `i` chunks concatenate to the corresponding prefix of the list |
| BruteForce.Partition | brute_force.py:224-228 | `threads` chunks, each the slice of its index, concatenating in order to exactly the list |
| BruteForce.NineOverThree | brute_force.py:224-227 | nine passwords over three threads give chunks of 3, 3 and 3 |
| BruteForce.ShortListGoesToLastChunk | brute_force.py:224-228 | with fewer passwords than threads, the last chunk holds the whole list and the others are empty |
| BruteForce.BruteForcer.constructor | brute_force.py:41-53 | zero attempts, no start time, not found, and a fresh monitor with no requests |
| BruteForce.BruteForcer.Begin | brute_force.py:115-117 | monitoring starts and the progress clock is set to `now` |
| BruteForce.BruteForcer.UpdateProgress | brute_force.py:55-64 | attempts rise by exactly one; `found` is set by a non-empty password and never cleared; the summary raises iff the count is a multiple of 100 while the start time is unset |
| BruteForce.BruteForcer.TryLogin | brute_force.py:66-105 | only the authenticated and no-match paths count an attempt; checkpoint and spam return false without touching progress or the monitor; a failed request is logged on the no-match and exception paths; a spam answer is followed by a 30-second sleep |
| InstaBrute.UsernameMessage | instabrute.py:79-80 | a username message is collected iff the username is empty |
| InstaBrute.SourceMessage | instabrute.py:82-83 | a missing-source message is collected iff there is neither a password list nor random mode |
| InstaBrute.PasswordListMessage | instabrute.py:85-86 | a not-found message naming the password list is collected iff a list is named and does not exist |
| InstaBrute.ProxyListMessage | instabrute.py:88-89 | a not-found message naming the proxy list is collected iff a list is named and does not exist |
| InstaBrute.ThreadCountMessage | instabrute.py:91-92 | a thread-count message is collected iff the count is below 1 |
| InstaBrute.CollectedInOrder | instabrute.py:77-92 | messages come in the order of the checks, each at most once |
| InstaBrute.CollectedNothing | instabrute.py:77-98 | nothing is collected iff every check passes |
| InstaBrute.ValidateArguments | instabrute.py:76-98 | every check runs and appends its own message; the result is true iff nothing was collected |
| InstaBrute.EitherSourceSuffices | instabrute.py:82-83 | random mode without a list is accepted, and so is an existing list without random mode |
| InstaBrute.ChooseStrategy | instabrute.py:140 | the strategy is RANDOM iff `--random`, else DICTIONARY, never HYBRID |
| InstaBrute.PasswordsAsWritten | instabrute.py:143 | as written, the list handed on is the path string, whose items are its characters |
| InstaBrute.Characters | instabrute.py:143 | iterating a string yields its characters one by one |
| InstaBrute.PathIsNotAList | instabrute.py:143 | as written, `--password-list pw.txt` becomes the six passwords `p`, `w`, `.`, `t`, `x`, `t` |
| InstaBrute.Passwords | instabrute.py:143 | the intended list is the lines of the named file, present exactly when a list is named |
| InstaBrute.MainPlan | instabrute.py:140-148 | given the file's lines: a multi-thread split into `threads` chunks iff `threads > 1` and the list is non-empty; random iff `--random` without a split; hybrid without a list iff neither `--random` nor a list; hybrid over the list iff the named file is empty and not `--random` |
| InstaBrute.AcceptedArgumentsHaveAList | instabrute.py:114-148 | for accepted arguments `main` never runs hybrid without a list; it runs random iff `--random` and no multi-thread split applies; a non-empty list without `--random` on one thread runs the dictionary loop |

## Left out

- Network, files, processes and sockets. Every `requests`/`aiohttp` call, `subprocess.run`, the stem `Controller`, `open` and `os.path.exists` is replaced by an input value or an oracle.
- Concurrency. Threads, `asyncio.gather`, `Semaphore`, `threading.Lock` and the monitor's sampling threads are not modelled. The partition of the list is modelled, not the threads that consume it. `multi_thread_brute_force` calls the async `brute_force` from its threads without awaiting it, so as written those threads do nothing; this is not modelled either.
- Floating point and jitter. `time.time()` differences, `enforce_delay` and its `random.uniform` sleep, the attempts/sec rate and `success_rate` are not modelled, nor are `ProxyStats.response_time` and `last_used` as floats (they are integers here). The same goes for the values of the CPU and memory averages in `get_current_status`; the division by zero they raise when no sample has been taken yet is modelled, by a sample count.
- Randomness. `generate_random_password` is not modelled: `RandomAttack` sees only whether each attempt succeeds. `random.choice` in `get_random_proxy` is an unspecified choice.
- Logging, `logging_config`, the banner, `show_usage`, argparse, `solve_captcha`, `save_result`, `save_valid_proxies`, `_generate_report`'s text and file, and psutil sampling. `configure_tor`, `stop_tor` and `validate_proxy` are left out too.
- The stubs `request_context`, `get_proxy` and `rotate_proxy` do nothing beyond entering the session. `SendRequest` models the intended POST, with its outcome as an oracle (see Findings for how `request_context` fails as written).
- `RequestManager.RequestManager.SendRequest`: a send after a limiter denial is not recorded in the limiter, because the source does not record it. This is modelled, not corrected: `Throttle` only sleeps after a denial.
- `ProxyManager.ProxyManager.GetNextProxy`: the source recurses while holding a non-reentrant `threading.Lock`. As written it would block at its first skip. With a reentrant lock, a queue whose proxies are all in cooldown would recurse until time passing ends a cooldown or Python's recursion limit raises `RecursionError`. The model is a bounded rotation: at most one pass, then `None`. A proxy without statistics raises `KeyError` in the source; the model returns `KeyError`, with the proxy already taken off the queue.
- Line splitting. `response.text.splitlines()` and `file.readlines()` are not modelled: the listings take their lines as a sequence of strings. `splitlines` also breaks at `\x1c`–`\x1e`, `\x85`, `\u2028` and `\u2029`, and `readlines` keeps each line's end, which `strip` then removes.
- `ProxyManager.BestProxy`: `is_proxy_valid` is not defined anywhere in the source, so it is an abstract predicate. Failure ratios are compared exactly by cross-multiplication rather than as floats.
- `instabrute.py`'s `setup_proxy` calls `validate_all_proxies` without awaiting it, so as written it never runs. `main` awaits the synchronous `initialize_proxies`, which raises `TypeError` after loading. Neither is modelled: the model's `main` covers only validation and the strategy and list it passes on.
- `CsrfManager.CsrfManager.GetCsrfToken`: `@lru_cache` memoises results, including `None`, regardless of the time-to-live. The module-level `get_csrf_token` builds a fresh manager on every call, so the cache never hits across calls. The model covers only the method body.
- `UrlQuote.Utf8RoundTrip`: `Unquote` uses strict UTF-8 decoding, where Python's `unquote` uses `errors='replace'`. The two agree on everything `quote` produces, which is all the model decodes.
- `RequestManager.HandleRateLimit`: `Retry-After` is modelled as absent, an integer, or text `int()` rejects. Parsing a header's text is not modelled.
- `BruteForce.RandomAttack`: requires the clock to advance strictly between checks. The source loop ends only by time passing, and the requirement gives that termination.
- `BruteForce.Partition`: requires `threads >= 1`. With `threads == 0` the source raises `ZeroDivisionError` at `len(password_list) // threads`, which is never reached from `main`, since validation rejects a thread count below 1.
- `BruteForce.BruteForcer.UpdateProgress`: the division in the progress summary is modelled only as the `TypeError` while `start_time` is unset. A zero elapsed time (`ZeroDivisionError`) is not modelled.
- `BruteForce.HybridAttack`: requires the clock to advance strictly, as `RandomAttack` does.
- `brute_force` always returns `[]`, even after a success. `main` therefore always reports that no password was found. The return value is not modelled.

## Findings

| source | as written | input that shows it | evidently intended | confidence | as-written member | corrected member |
|---|---|---|---|---|---|---|
| request_manager.py:43-74 | `request_context` is a synchronous `@contextmanager` entered with `async with`, which raises `TypeError`; that is not an `aiohttp.ClientError`, so every call raises before its first POST | a first POST answered with status 200 | an async context manager, so that the POST is sent and its response returned | high (not executed) | RequestManager.SendAsWritten, RequestManager.ContextManagerLosesResponses | RequestManager.RequestManager.SendRequest, RequestManager.FirstFinalOutcomeWins |
| brute_force.py:86-96 | `'"authenticated":true' in response.text` tests membership in aiohttp's `text` coroutine method, which raises `TypeError`, so every response goes to the exception handler and counts as a failed request | a returned response whose body is `"authenticated":true` | classify the awaited body text | high (not executed) | BruteForce.PathAsWritten, BruteForce.AuthenticatedResponseLost | BruteForce.PathOf, BruteForce.BruteForcer.TryLogin |
| brute_force.py:162-165 | `try_login` is a coroutine function called without `await`, and the coroutine object is truthy, so the first password tried is reported as found | any non-empty list checked within the timeout, whatever the server answers | await the login and stop only on a real success | high (not executed) | BruteForce.DictionaryAttackAsWritten | BruteForce.DictionaryAttack |
| brute_force.py:175-178 | the random loop also calls `try_login` without `await`, so its first login is reported as found and the loop returns after one attempt | a first check within the timeout, whatever the server answers | await the login and go on until a real success or the timeout | high (not executed) | BruteForce.RandomAttackAsWritten | BruteForce.RandomAttack |
| instabrute.py:143 | `password_list=args.password_list` passes the path string, so `brute_force` iterates over the characters of the file name | `--password-list pw.txt` gives the passwords `p`, `w`, `.`, `t`, `x`, `t` | pass the lines of the named file | high (not executed) | InstaBrute.PasswordsAsWritten, InstaBrute.PathIsNotAList | InstaBrute.Passwords, InstaBrute.AcceptedArgumentsHaveAList |
