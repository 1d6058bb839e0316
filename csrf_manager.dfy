/** The CSRF token cache: a single (token, timestamp) entry with a strict
    time-to-live, fetch on a miss, a status-only validation probe and a
    bounded retry loop. The login page request is an input. */
module CsrfManager {
  import opened Options

  /** The cache entry `{'token': ..., 'timestamp': ...}`. */
  datatype CachedToken = CachedToken(token: string, timestamp: int)

  /** The answer to a request for the login page: its status and its `csrftoken`
      cookie, or a `RequestException`. */
  datatype PageReply = Page(status: int, cookie: Option<string>) | RequestFailed

  /** The default time-to-live, in minutes. */
  const DefaultCacheMinutes := 15

  /** The token an entry still offers at `now`: the cached one while strictly younger than `ttl`. */
  function Lookup(cache: Option<CachedToken>, now: int, ttl: int): (r: Option<string>)
    ensures r.Some? <==> cache.Some? && now - cache.value.timestamp < ttl
    ensures r.Some? ==> r.value == cache.value.token
  {
    match cache
    case None => None
    case Some(entry) => if now - entry.timestamp < ttl then Some(entry.token) else None
  }

  /** A token cached at `t` is offered exactly for the `ttl` time units starting at `t`. */
  lemma CachedFor(token: string, t: int, ttl: int, now: int)
    requires t <= now
    ensures Lookup(Some(CachedToken(token, t)), now, ttl) == Some(token) <==> now < t + ttl
  {
  }

  /** Once an entry has expired it stays expired, since nothing renews it. */
  lemma ExpiryIsFinal(cache: Option<CachedToken>, ttl: int, now: int, later: int)
    requires now <= later
    requires Lookup(cache, now, ttl).None?
    ensures Lookup(cache, later, ttl).None?
  {
  }

  /** The token a fetch yields: the cookie of a 200 answer, when present and non-empty. */
  function Fetched(reply: PageReply): (r: Option<string>)
    ensures r.Some? <==> reply.Page? && reply.status == 200 && reply.cookie.Some? && reply.cookie.value != []
    ensures r.Some? ==> r.value == reply.cookie.value
  {
    if reply.Page? && reply.status == 200 && reply.cookie.Some? && reply.cookie.value != [] then reply.cookie
    else None
  }

  /** `validate_csrf_token`: the token is valid iff the probe answered with status 200. */
  function ValidateCsrfToken(reply: PageReply): (valid: bool)
    ensures valid <==> reply.Page? && reply.status == 200
    ensures reply.RequestFailed? ==> !valid
  {
    match reply
    case Page(status, _) => status == 200
    case RequestFailed => false
  }

  /** What a call handed to `retry_request` does: returns a value, raises a
      `RequestException`, or raises something else, which is not caught. */
  datatype CallResult<T> = Value(value: T) | RequestError | OtherError

  /** How `retry_request` ends. */
  datatype RetryOutcome<T> = Returned(value: T) | Propagated | AllFailed

  predicate AllRequestErrors<T>(call: nat -> CallResult<T>, n: nat) {
    forall j: nat :: j < n ==> call(j).RequestError?
  }

  function Attempts(retries: int): nat {
    if retries < 0 then 0 else retries
  }

  /** `retry_request(func, retries, delay)`, the j-th call answering `call(j)`:
      at most `retries` calls, the first one that does not raise a
      `RequestException` ends the loop, and each caught exception is followed
      by a sleep of `delay`. `time.sleep` rejects a negative length with
      `ValueError`, which escapes from the handler after the first caught
      exception. `sleeps` lists the sleeps that completed. */
  method RetryRequest<T>(call: nat -> CallResult<T>, retries: int, delay: int)
    returns (r: RetryOutcome<T>, calls: nat, sleeps: seq<int>)
    ensures calls <= Attempts(retries)
    ensures r.AllFailed? <==> calls == Attempts(retries) && AllRequestErrors(call, calls) && (delay >= 0 || calls == 0)
    ensures !r.AllFailed? ==> 1 <= calls && AllRequestErrors(call, calls - 1)
    ensures r.Returned? <==> !r.AllFailed? && call(calls - 1).Value?
    ensures r.Returned? ==> call(calls - 1) == Value(r.value)
    ensures r.Propagated? ==> call(calls - 1).OtherError? || (call(calls - 1).RequestError? && delay < 0)
    ensures delay < 0 ==> calls <= 1 && sleeps == []
    ensures |sleeps| == (if delay < 0 then 0 else if r.AllFailed? then calls else calls - 1)
    ensures forall i :: 0 <= i < |sleeps| ==> sleeps[i] == delay
  {
    sleeps := [];
    calls := 0;
    var attempt := 0;
    while attempt < retries
      invariant 0 <= attempt && attempt <= Attempts(retries)
      invariant calls == attempt && |sleeps| == attempt
      invariant delay < 0 ==> attempt == 0
      invariant AllRequestErrors(call, attempt)
      invariant forall i :: 0 <= i < |sleeps| ==> sleeps[i] == delay
    {
      calls := calls + 1;
      match call(attempt)
      case Value(v) =>
        return Returned(v), calls, sleeps;
      case OtherError =>
        return Propagated, calls, sleeps;
      case RequestError =>
        if delay < 0 {
          return Propagated, calls, sleeps;
        }
        sleeps := sleeps + [delay];
        attempt := attempt + 1;
    }
    r := AllFailed;
  }

  class CsrfManager {
    const cacheDuration: int
    var tokenCache: Option<CachedToken>

    /** A manager with an empty cache and a time-to-live of `cacheMinutes` minutes. */
    constructor (cacheMinutes: int := DefaultCacheMinutes)
      ensures cacheDuration == cacheMinutes * 60
      ensures tokenCache == None
    {
      cacheDuration := cacheMinutes * 60;
      tokenCache := None;
    }

    /** `cache_token`: the whole entry is replaced. */
    method CacheToken(token: string, now: int)
      modifies this`tokenCache
      ensures tokenCache == Some(CachedToken(token, now))
    {
      tokenCache := Some(CachedToken(token, now));
    }

    /** `get_cached_token`: an expired entry is reported as absent but not removed. */
    function GetCachedToken(now: int): (r: Option<string>)
      reads this
      ensures r.Some? <==> tokenCache.Some? && now - tokenCache.value.timestamp < cacheDuration
      ensures r.Some? ==> r.value == tokenCache.value.token
    {
      Lookup(tokenCache, now, cacheDuration)
    }

    /** `get_csrf_token` at time `now`: a non-empty cached token is returned
        without a request; otherwise the page is fetched (answer `reply`) and
        only a token it yields is cached and returned. */
    method GetCsrfToken(now: int, reply: PageReply) returns (r: Option<string>, fetched: bool)
      modifies this`tokenCache
      ensures var cached := old(Lookup(tokenCache, now, cacheDuration));
        && (cached.Some? && cached.value != [] ==> r == cached && !fetched && tokenCache == old(tokenCache))
        && (!(cached.Some? && cached.value != []) ==> fetched && r == Fetched(reply))
      ensures r.None? ==> tokenCache == old(tokenCache)
      ensures fetched && r.Some? ==> tokenCache == Some(CachedToken(r.value, now))
    {
      var cached := GetCachedToken(now);
      if cached.Some? && cached.value != [] {
        return cached, false;
      }
      fetched := true;
      r := None;
      if reply.Page? && reply.status == 200 {
        var token := reply.cookie;
        if token.Some? && token.value != [] {
          CacheToken(token.value, now);
          r := token;
        }
      }
    }
  }

  /** After a successful fetch the next call within the time-to-live is served from the cache. */
  method FetchThenHit(now: int, later: int, reply: PageReply, again: PageReply)
    returns (first: Option<string>, second: Option<string>, fetchedAgain: bool)
    requires now <= later < now + DefaultCacheMinutes * 60
    requires Fetched(reply).Some?
    ensures first == Fetched(reply) && second == first && !fetchedAgain
  {
    var m := new CsrfManager();
    var f1;
    first, f1 := m.GetCsrfToken(now, reply);
    second, fetchedAgain := m.GetCsrfToken(later, again);
  }
}
