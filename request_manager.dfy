/** The dispatcher: a sliding-window rate limiter and the bounded retry loop
    of `send_request`. The clock is an integer supplied by the caller; the
    outcome of the k-th POST of a call is an oracle `outcome(k)`. */
module RequestManager {
  import opened Options

  // ---------------------------------------------------------------------
  // Sliding-window rate limiter
  // ---------------------------------------------------------------------

  /** The stored timestamps strictly newer than `cutoff`, in their order. */
  function KeepNewer(reqs: seq<int>, cutoff: int): (r: seq<int>)
    ensures |r| <= |reqs|
  {
    if reqs == [] then []
    else (if reqs[0] > cutoff then [reqs[0]] else []) + KeepNewer(reqs[1..], cutoff)
  }

  /** What one `allow_request` call at time `now` decides and leaves behind. */
  datatype Admission = Admission(granted: bool, requests: seq<int>)

  /** `allow_request`: prune everything not newer than `now - window`, then
      grant, appending exactly `now`, iff fewer than `maxRequests` remain. */
  function Admit(reqs: seq<int>, now: int, maxRequests: nat, window: int): (a: Admission)
    ensures var kept := KeepNewer(reqs, now - window);
      && (a.granted <==> |kept| < maxRequests)
      && a.requests == (if a.granted then kept + [now] else kept)
    ensures a.granted ==> |a.requests| <= maxRequests
  {
    var kept := KeepNewer(reqs, now - window);
    if |kept| < maxRequests then Admission(true, kept + [now]) else Admission(false, kept)
  }

  /** `get_delay`: how long until the oldest stored timestamp leaves the window. */
  function Delay(reqs: seq<int>, now: int, window: int): (d: int)
    ensures reqs == [] ==> d == 0
    ensures reqs != [] && now - window < reqs[0] <= now ==> 0 < d <= window
  {
    if reqs == [] then 0 else window - (now - reqs[0])
  }

  predicate Sorted(s: seq<int>) {
    forall i, j :: 0 <= i < j < |s| ==> s[i] <= s[j]
  }

  predicate AllAtMost(s: seq<int>, t: int) {
    forall i :: 0 <= i < |s| ==> s[i] <= t
  }

  predicate AllAfter(s: seq<int>, t: int) {
    forall i :: 0 <= i < |s| ==> s[i] > t
  }

  predicate NonDecreasing(times: seq<int>) {
    forall i, j :: 0 <= i < j < |times| ==> times[i] <= times[j]
  }

  predicate AllAtLeast(s: seq<int>, lo: int) {
    forall i :: 0 <= i < |s| ==> lo <= s[i]
  }

  lemma KeepNewerStep(reqs: seq<int>, cutoff: int)
    requires reqs != []
    ensures reqs[0] > cutoff ==> KeepNewer(reqs, cutoff) == [reqs[0]] + KeepNewer(reqs[1..], cutoff)
    ensures reqs[0] <= cutoff ==> KeepNewer(reqs, cutoff) == KeepNewer(reqs[1..], cutoff)
  {
  }

  lemma {:induction false} KeepNewerSorted(reqs: seq<int>, cutoff: int)
    requires Sorted(reqs)
    ensures Sorted(KeepNewer(reqs, cutoff))
  {
    if reqs != [] {
      KeepNewerStep(reqs, cutoff);
      KeepNewerSorted(reqs[1..], cutoff);
      var rest := KeepNewer(reqs[1..], cutoff);
      if reqs[0] > cutoff {
        assert AllAtLeast(reqs[1..], reqs[0]);
        KeepNewerAtLeast(reqs[1..], cutoff, reqs[0]);
        SortedCons(reqs[0], rest);
      }
    }
  }

  lemma SortedCons(x: int, s: seq<int>)
    requires Sorted(s) && AllAtLeast(s, x)
    ensures Sorted([x] + s)
  {
    var r := [x] + s;
    forall i, j | 0 <= i < j < |r| ensures r[i] <= r[j] {
      assert r[j] == s[j - 1];
      if i > 0 { assert r[i] == s[i - 1]; }
    }
  }

  lemma {:induction false} KeepNewerAtLeast(reqs: seq<int>, cutoff: int, lo: int)
    requires AllAtLeast(reqs, lo)
    ensures AllAtLeast(KeepNewer(reqs, cutoff), lo)
  {
    if reqs != [] {
      KeepNewerStep(reqs, cutoff);
      assert AllAtLeast(reqs[1..], lo);
      KeepNewerAtLeast(reqs[1..], cutoff, lo);
    }
  }

  lemma {:induction false} KeepNewerAtMost(reqs: seq<int>, cutoff: int, t: int)
    requires AllAtMost(reqs, t)
    ensures AllAtMost(KeepNewer(reqs, cutoff), t) && AllAfter(KeepNewer(reqs, cutoff), cutoff)
  {
    if reqs != [] {
      KeepNewerStep(reqs, cutoff);
      assert AllAtMost(reqs[1..], t);
      KeepNewerAtMost(reqs[1..], cutoff, t);
    }
  }

  /** `KeepNewer` keeps exactly the entries newer than the cutoff. */
  lemma {:induction false} KeepNewerMembers(reqs: seq<int>, cutoff: int)
    ensures forall x :: x in KeepNewer(reqs, cutoff) <==> x in reqs && x > cutoff
  {
    if reqs != [] {
      KeepNewerMembers(reqs[1..], cutoff);
      assert reqs == [reqs[0]] + reqs[1..];
    }
  }

  lemma {:induction false} KeepNewerAll(reqs: seq<int>, cutoff: int)
    requires AllAfter(reqs, cutoff)
    ensures KeepNewer(reqs, cutoff) == reqs
  {
    if reqs != [] { KeepNewerAll(reqs[1..], cutoff); }
  }

  lemma SortedAppend(s: seq<int>, x: int)
    requires Sorted(s) && AllAtMost(s, x)
    ensures Sorted(s + [x])
  {
  }

  /** Pruning twice keeps what pruning once with the later cutoff keeps. */
  lemma {:induction false} KeepNewerTwice(reqs: seq<int>, a: int, b: int)
    requires a <= b
    ensures KeepNewer(KeepNewer(reqs, a), b) == KeepNewer(reqs, b)
  {
    if reqs != [] {
      KeepNewerTwice(reqs[1..], a, b);
      var head := if reqs[0] > a then [reqs[0]] else [];
      KeepNewerAppend(head, KeepNewer(reqs[1..], a), b);
      if reqs[0] > a { assert head[1..] == []; }
    }
  }

  lemma {:induction false} KeepNewerAppend(s: seq<int>, t: seq<int>, cutoff: int)
    ensures KeepNewer(s + t, cutoff) == KeepNewer(s, cutoff) + KeepNewer(t, cutoff)
  {
    if s == [] {
      assert s + t == t;
    } else {
      assert (s + t)[0] == s[0] && (s + t)[1..] == s[1..] + t;
      KeepNewerAppend(s[1..], t, cutoff);
    }
  }

  /** `allow_request` keeps the list sorted and inside the window, for a clock that does not go back. */
  lemma AdmitKeepsOrder(reqs: seq<int>, now: int, maxRequests: nat, window: int)
    requires window > 0
    requires Sorted(reqs) && AllAtMost(reqs, now)
    ensures var r := Admit(reqs, now, maxRequests, window).requests;
      Sorted(r) && AllAtMost(r, now) && AllAfter(r, now - window)
  {
    KeepNewerSorted(reqs, now - window);
    KeepNewerAtMost(reqs, now - window, now);
    var kept := KeepNewer(reqs, now - window);
    if |kept| < maxRequests {
      SortedAppend(kept, now);
      assert Admit(reqs, now, maxRequests, window).requests == kept + [now];
    }
  }

  /** A denial at `now` is followed by a wait in `(0, window]`, provided at least one grant is allowed. */
  lemma DelayAfterDenial(reqs: seq<int>, now: int, maxRequests: nat, window: int)
    requires maxRequests >= 1 && AllAtMost(reqs, now)
    requires !Admit(reqs, now, maxRequests, window).granted
    ensures var r := Admit(reqs, now, maxRequests, window).requests;
      0 < Delay(r, now, window) <= window
  {
    KeepNewerAtMost(reqs, now - window, now);
  }

  /** Grant times that fall in `(lo, hi]`. */
  function CountIn(s: seq<int>, lo: int, hi: int): (n: nat)
    ensures n <= |s|
  {
    if s == [] then 0 else (if lo < s[0] <= hi then 1 else 0) + CountIn(s[1..], lo, hi)
  }

  lemma {:induction false} CountInAppend(s: seq<int>, x: int, lo: int, hi: int)
    ensures CountIn(s + [x], lo, hi) == CountIn(s, lo, hi) + (if lo < x <= hi then 1 else 0)
  {
    if s == [] {
      assert s + [x] == [x];
    } else {
      assert (s + [x])[1..] == s[1..] + [x];
      CountInAppend(s[1..], x, lo, hi);
    }
  }

  /** When nothing lies above `hi`, counting in `(lo, hi]` counts what survives pruning at `lo`. */
  lemma {:induction false} CountInBelow(s: seq<int>, lo: int, hi: int)
    requires AllAtMost(s, hi)
    ensures CountIn(s, lo, hi) == |KeepNewer(s, lo)|
  {
    if s != [] { CountInBelow(s[1..], lo, hi); }
  }

  lemma {:induction false} KeepNewerShrinks(s: seq<int>, a: int, b: int)
    requires a <= b
    ensures |KeepNewer(s, b)| <= |KeepNewer(s, a)|
  {
    if s != [] { KeepNewerShrinks(s[1..], a, b); }
  }

  /** The limiter's state after a sequence of calls, and every grant time so far. */
  datatype History = History(requests: seq<int>, grants: seq<int>)

  /** One more `allow_request` call at time `now`. */
  function Next(h: History, now: int, maxRequests: nat, window: int): History {
    var a := Admit(h.requests, now, maxRequests, window);
    History(a.requests, h.grants + (if a.granted then [now] else []))
  }

  function Run(times: seq<int>, maxRequests: nat, window: int): (h: History)
    ensures |h.grants| <= |times|
  {
    if times == [] then History([], [])
    else Next(Run(times[..|times| - 1], maxRequests, window), times[|times| - 1], maxRequests, window)
  }

  lemma NonDecreasingPrefix(times: seq<int>, k: nat)
    requires NonDecreasing(times) && k <= |times|
    ensures NonDecreasing(times[..k])
  {
  }

  lemma AtMostWeaken(s: seq<int>, t: int, u: int)
    requires AllAtMost(s, t) && t <= u
    ensures AllAtMost(s, u)
  {
  }

  /** The stored list is exactly the grants newer than `now - window`, sorted,
      never longer than `maxRequests`, and no grant lies in the future. */
  predicate Consistent(h: History, now: int, maxRequests: nat, window: int) {
    && h.requests == KeepNewer(h.grants, now - window)
    && Sorted(h.requests) && |h.requests| <= maxRequests
    && AllAtMost(h.grants, now)
  }

  /** One call of the limiter, at a time not before the previous one, keeps the history consistent. */
  lemma NextConsistent(h: History, prev: int, now: int, maxRequests: nat, window: int)
    requires window > 0 && prev <= now
    requires Consistent(h, prev, maxRequests, window)
    ensures Consistent(Next(h, now, maxRequests, window), now, maxRequests, window)
  {
    AdmitStep(h.requests, h.grants, prev, now, maxRequests, window);
    AtMostWeaken(h.grants, prev, now);
    KeepNewerAtMost(h.grants, prev - window, now);
    AdmitKeepsOrder(h.requests, now, maxRequests, window);
  }

  /** One call of the limiter keeps the relation between stored entries and grants. */
  lemma AdmitStep(reqs: seq<int>, grants: seq<int>, prev: int, now: int, maxRequests: nat, window: int)
    requires window > 0 && prev <= now
    requires reqs == KeepNewer(grants, prev - window) && |reqs| <= maxRequests
    requires AllAtMost(grants, prev)
    ensures var a := Admit(reqs, now, maxRequests, window);
      var grants' := grants + (if a.granted then [now] else []);
      && a.requests == KeepNewer(grants', now - window)
      && |a.requests| <= maxRequests
      && AllAtMost(grants', now)
  {
    var a := Admit(reqs, now, maxRequests, window);
    KeepNewerTwice(grants, prev - window, now - window);
    AtMostWeaken(grants, prev, now);
    if a.granted {
      GrantedStep(grants, now, window);
      assert AllAtMost(grants + [now], now);
    } else {
      assert grants + [] == grants;
      assert |a.requests| <= |reqs|;
    }
  }

  /** A grant at `now` survives pruning at `now - window`, after what was already kept. */
  lemma GrantedStep(grants: seq<int>, now: int, window: int)
    requires window > 0
    ensures KeepNewer(grants + [now], now - window) == KeepNewer(grants, now - window) + [now]
  {
    KeepNewerAppend(grants, [now], now - window);
    KeepNewerStep([now], now - window);
    assert [now][1..] == [];
  }

  /** With a clock that does not go back, every history the limiter runs through is consistent. */
  lemma {:induction false} RunInvariant(times: seq<int>, maxRequests: nat, window: int)
    requires window > 0 && NonDecreasing(times) && times != []
    ensures Consistent(Run(times, maxRequests, window), times[|times| - 1], maxRequests, window)
  {
    var n := |times|;
    var prefix := times[..n - 1];
    var now := times[n - 1];
    if n == 1 {
      NextConsistent(History([], []), now, now, maxRequests, window);
    } else {
      NonDecreasingPrefix(times, n - 1);
      RunInvariant(prefix, maxRequests, window);
      assert prefix[n - 2] <= now;
      NextConsistent(Run(prefix, maxRequests, window), prefix[n - 2], now, maxRequests, window);
    }
  }

  /** One more call adds at most one grant to any interval, and keeps every interval within the bound. */
  lemma NextWithinBound(h: History, prev: int, now: int, maxRequests: nat, window: int, t: int)
    requires window > 0 && prev <= now
    requires Consistent(h, prev, maxRequests, window)
    requires CountIn(h.grants, t - window, t) <= maxRequests
    ensures CountIn(Next(h, now, maxRequests, window).grants, t - window, t) <= maxRequests
  {
    var a := Admit(h.requests, now, maxRequests, window);
    var h' := Next(h, now, maxRequests, window);
    if a.granted {
      assert h'.grants == h.grants + [now];
      CountInAppend(h.grants, now, t - window, t);
      if t >= now {
        NextConsistent(h, prev, now, maxRequests, window);
        AtMostWeaken(h'.grants, now, t);
        CountInBelow(h'.grants, t - window, t);
        KeepNewerShrinks(h'.grants, now - window, t - window);
      }
    } else {
      assert h'.grants == h.grants;
    }
  }

  /** The throughput bound: at most `maxRequests` grants in any `window`-long interval `(t - window, t]`. */
  lemma {:induction false} ThroughputBound(times: seq<int>, maxRequests: nat, window: int, t: int)
    requires window > 0 && NonDecreasing(times)
    ensures CountIn(Run(times, maxRequests, window).grants, t - window, t) <= maxRequests
  {
    var n := |times|;
    if n == 1 {
      NextWithinBound(History([], []), times[0], times[0], maxRequests, window, t);
    } else if n > 1 {
      var prefix := times[..n - 1];
      NonDecreasingPrefix(times, n - 1);
      ThroughputBound(prefix, maxRequests, window, t);
      RunInvariant(prefix, maxRequests, window);
      assert prefix[n - 2] <= times[n - 1];
      NextWithinBound(Run(prefix, maxRequests, window), prefix[n - 2], times[n - 1], maxRequests, window, t);
    }
  }

  /** The dispatcher's own limiter: at most 30 grants in any 60-unit interval. */
  lemma DefaultThroughput(times: seq<int>, t: int)
    requires NonDecreasing(times)
    ensures CountIn(Run(times, 30, 60).grants, t - 60, t) <= 30
  {
    ThroughputBound(times, 30, 60, t);
  }

  class RateLimiter {
    const maxRequests: nat
    const timeWindow: int
    var requests: seq<int>

    ghost predicate Valid()
      reads this
    {
      |requests| <= maxRequests
    }

    constructor (maxRequests: nat, timeWindow: int)
      ensures this.maxRequests == maxRequests && this.timeWindow == timeWindow
      ensures requests == [] && Valid()
    {
      this.maxRequests := maxRequests;
      this.timeWindow := timeWindow;
      requests := [];
    }

    /** `allow_request` at time `now`. */
    method AllowRequest(now: int) returns (granted: bool)
      requires Valid()
      modifies this
      ensures Valid()
      ensures Admission(granted, requests) == Admit(old(requests), now, maxRequests, timeWindow)
    {
      requests := KeepNewer(requests, now - timeWindow);
      if |requests| < maxRequests {
        requests := requests + [now];
        granted := true;
      } else {
        granted := false;
      }
    }

    /** `get_delay` at time `now`: nothing to wait for an empty list, and
        at most one window while the oldest entry is inside it. */
    function GetDelay(now: int): (d: int)
      reads this
      ensures requests == [] ==> d == 0
      ensures requests != [] && now - timeWindow < requests[0] <= now ==> 0 < d <= timeWindow
    {
      Delay(requests, now, timeWindow)
    }
  }

  // ---------------------------------------------------------------------
  // send_request
  // ---------------------------------------------------------------------

  /** The `Retry-After` header: absent, an integer, or text `int()` rejects. */
  datatype RetryAfter = Absent | Seconds(n: int) | Malformed

  datatype Response = Response(status: int, retryAfter: RetryAfter, body: string)

  /** What one POST produces: a response, an `aiohttp.ClientError`, or any other exception. */
  datatype PostOutcome = Received(response: Response) | ClientError | OtherError

  /** How a call of `send_request` ends: the first answer, `None` once the
      budget is spent, or an exception that escapes it. */
  datatype SendOutcome = Returned(response: Response) | GaveUp | Raised

  const MaxRetries: nat := 3
  const DefaultRetryAfter: int := 30

  /** `2 ** k`. */
  function Pow2(k: nat): (p: nat)
    ensures p >= 1
  {
    if k == 0 then 1 else 2 * Pow2(k - 1)
  }

  /** `handle_rate_limit`: `Some(wait)` for a 429 whose header parses (30 when absent),
      `None` for any other status; `Raised` is signalled by a malformed header on a 429. */
  datatype RateLimitCheck = NotLimited | Wait(seconds: int) | HeaderError

  function HandleRateLimit(r: Response): (c: RateLimitCheck)
    ensures c.NotLimited? <==> r.status != 429
    ensures c.Wait? ==> c.seconds == (if r.retryAfter.Seconds? then r.retryAfter.n else DefaultRetryAfter)
    ensures c.HeaderError? <==> r.status == 429 && r.retryAfter.Malformed?
  {
    if r.status != 429 then NotLimited
    else match r.retryAfter
      case Absent => Wait(DefaultRetryAfter)
      case Seconds(n) => Wait(n)
      case Malformed => HeaderError
  }

  /** A POST outcome after which the loop tries again. */
  predicate Retryable(p: PostOutcome) {
    p.ClientError? || (p.Received? && HandleRateLimit(p.response).Wait?)
  }

  /** What a call ends with when POST number `k` does not lead to a retry. */
  function Final(p: PostOutcome): SendOutcome {
    if p.Received? && HandleRateLimit(p.response).NotLimited? then Returned(p.response) else Raised
  }

  /** The sleep after a retryable outcome of POST number `k`: the honoured
      `Retry-After`, or the backoff `2 ** (k + 1)` when a retry remains. */
  function Backoff(p: PostOutcome, k: nat): seq<int>
    requires Retryable(p)
  {
    if p.ClientError? then (if k + 1 < MaxRetries then [Pow2(k + 1)] else [])
    else [HandleRateLimit(p.response).seconds]
  }

  datatype SendResult = SendResult(outcome: SendOutcome, waits: seq<int>, posts: nat)

  /** The retry decisions of `send_request`, from `retry_count == k` on. */
  function Retrying(o: nat -> PostOutcome, k: nat): (r: SendResult)
    requires k <= MaxRetries
    ensures k < MaxRetries ==> 1 <= r.posts <= MaxRetries - k
    ensures k == MaxRetries ==> r == SendResult(GaveUp, [], 0)
    decreases MaxRetries - k
  {
    if k == MaxRetries then SendResult(GaveUp, [], 0)
    else if Retryable(o(k)) then
      var rest := Retrying(o, k + 1);
      SendResult(rest.outcome, Backoff(o(k), k) + rest.waits, rest.posts + 1)
    else SendResult(Final(o(k)), [], 1)
  }

  /** `r` preceded by the given sleeps and POSTs. */
  function After(waits: seq<int>, posts: nat, r: SendResult): SendResult {
    SendResult(r.outcome, waits + r.waits, posts + r.posts)
  }

  lemma AfterAfter(w1: seq<int>, p1: nat, w2: seq<int>, p2: nat, r: SendResult)
    ensures After(w1, p1, After(w2, p2, r)) == After(w1 + w2, p1 + p2, r)
  {
    assert (w1 + w2) + r.waits == w1 + (w2 + r.waits);
  }

  lemma RetryingStep(o: nat -> PostOutcome, k: nat)
    requires k < MaxRetries
    ensures Retryable(o(k)) ==> Retrying(o, k) == After(Backoff(o(k), k), 1, Retrying(o, k + 1))
    ensures !Retryable(o(k)) ==> Retrying(o, k) == SendResult(Final(o(k)), [], 1)
  {
  }

  /** One retried POST extends the sleeps done so far by its own sleep. */
  lemma RetryAdvance(o: nat -> PostOutcome, first: nat, k: nat, waits: seq<int>, posts: nat)
    requires first <= k < MaxRetries && Retryable(o(k))
    requires Retrying(o, first) == After(waits, posts, Retrying(o, k))
    ensures Retrying(o, first) == After(waits + Backoff(o(k), k), posts + 1, Retrying(o, k + 1))
  {
    RetryingStep(o, k);
    AfterAfter(waits, posts, Backoff(o(k), k), 1, Retrying(o, k + 1));
  }

  /** A POST that is not retried ends the call with its own outcome. */
  lemma RetryEnds(o: nat -> PostOutcome, first: nat, k: nat, waits: seq<int>, posts: nat)
    requires first <= k < MaxRetries && !Retryable(o(k))
    requires Retrying(o, first) == After(waits, posts, Retrying(o, k))
    ensures Retrying(o, first) == SendResult(Final(o(k)), waits, posts + 1)
  {
    RetryingStep(o, k);
    assert waits + [] == waits;
  }

  /** The sleeps of the retryable POSTs `k .. j-1`, in order. */
  function Backoffs(o: nat -> PostOutcome, k: nat, j: nat): seq<int>
    requires k <= j
    requires forall i :: k <= i < j ==> Retryable(o(i))
    decreases j - k
  {
    if k == j then [] else Backoff(o(k), k) + Backoffs(o, k + 1, j)
  }

  /** The first POST that is neither a rate-limit answer nor a transport error
      ends the call: a non-429 response is returned, anything else escapes. */
  lemma {:induction false} FirstFinalOutcomeWins(o: nat -> PostOutcome, k: nat, j: nat)
    requires k <= j < MaxRetries
    requires forall i :: k <= i < j ==> Retryable(o(i))
    requires !Retryable(o(j))
    ensures Retrying(o, k) == SendResult(Final(o(j)), Backoffs(o, k, j), j - k + 1)
    decreases j - k
  {
    if k < j { FirstFinalOutcomeWins(o, k + 1, j); }
  }

  /** When every remaining POST is retryable the budget runs out and the call gives up. */
  lemma {:induction false} GivesUpWhenAllRetryable(o: nat -> PostOutcome, k: nat)
    requires k <= MaxRetries
    requires forall i :: k <= i < MaxRetries ==> Retryable(o(i))
    ensures Retrying(o, k) == SendResult(GaveUp, Backoffs(o, k, MaxRetries), MaxRetries - k)
    decreases MaxRetries - k
  {
    if k < MaxRetries { GivesUpWhenAllRetryable(o, k + 1); }
  }

  /** Three transport errors: backoffs of 2 then 4 seconds, no sleep after the third, `None`. */
  lemma ThreeTransportErrors(o: nat -> PostOutcome)
    requires o(0).ClientError? && o(1).ClientError? && o(2).ClientError?
    ensures Retrying(o, 0) == SendResult(GaveUp, [2, 4], 3)
  {
    GivesUpWhenAllRetryable(o, 0);
    assert Backoffs(o, 2, 3) == [];
    assert Backoffs(o, 1, 3) == [4];
  }

  /** Three 429 answers without `Retry-After`: three waits of 30 seconds, then `None`. */
  lemma ThreeRateLimitsWithoutHeader(o: nat -> PostOutcome)
    requires forall i :: 0 <= i < 3 ==> o(i).Received? && o(i).response.status == 429 && o(i).response.retryAfter.Absent?
    ensures Retrying(o, 0) == SendResult(GaveUp, [30, 30, 30], 3)
  {
    GivesUpWhenAllRetryable(o, 0);
    assert Backoffs(o, 2, 3) == [30];
    assert Backoffs(o, 1, 3) == [30, 30];
  }

  /** A status other than 429 is returned at once, whatever it is. */
  lemma AnyOtherStatusIsReturned(o: nat -> PostOutcome)
    requires o(0).Received? && o(0).response.status != 429
    ensures Retrying(o, 0) == SendResult(Returned(o(0).response), [], 1)
  {
  }

  /** `send_request` as written: `request_context` is a generator-based
      `@contextmanager`, which `async with` cannot enter. The resulting
      `TypeError` is not an `aiohttp.ClientError`, so it escapes right after
      the limiter gate, before any POST. */
  function SendAsWritten(o: nat -> PostOutcome): (r: SendResult)
    ensures r.outcome == Raised && r.posts == 0 && r.waits == []
  {
    SendResult(Raised, [], 0)
  }

  /** As written, even an immediate successful answer is lost: the call raises without posting. */
  lemma ContextManagerLosesResponses(o: nat -> PostOutcome)
    requires o(0).Received? && o(0).response.status != 429
    ensures SendAsWritten(o).outcome == Raised && SendAsWritten(o).posts == 0
    ensures Retrying(o, 0) == SendResult(Returned(o(0).response), [], 1)
  {
  }

  /** The limiter and the clock after a gate: the list `allow_request` left and the time once any delay has been slept. */
  datatype Gated = Gated(requests: seq<int>, time: int)

  /** The limiter gate at the top of an attempt at time `t`: the list
      `allow_request` leaves, and the time once the delay after a denial has
      been slept (when it is positive). */
  function Gate(reqs: seq<int>, t: int, maxRequests: nat, window: int): (g: Gated)
    ensures g.requests == Admit(reqs, t, maxRequests, window).requests
    ensures g.time >= t
  {
    var a := Admit(reqs, t, maxRequests, window);
    var d := Delay(a.requests, t, window);
    Gated(a.requests, if !a.granted && d > 0 then t + d else t)
  }

  /** A grant does not wait; after a denial the caller sleeps until the oldest
      stored entry leaves the window. */
  lemma GateWaitsForOldest(reqs: seq<int>, t: int, maxRequests: nat, window: int)
    requires maxRequests >= 1 && AllAtMost(reqs, t)
    ensures var g := Gate(reqs, t, maxRequests, window);
      && (Admit(reqs, t, maxRequests, window).granted ==> g.time == t)
      && (!Admit(reqs, t, maxRequests, window).granted ==>
            g.requests != [] && g.time > t && g.time == g.requests[0] + window)
  {
    if !Admit(reqs, t, maxRequests, window).granted {
      DelayAfterDenial(reqs, t, maxRequests, window);
    }
  }

  /** How far the clock moves after POST number `k` when it is retried: its
      sleep, where a negative `Retry-After` returns at once; 0 otherwise. */
  function Pause(p: PostOutcome, k: nat): (d: nat)
    ensures Retryable(p) && Backoff(p, k) == [] ==> d == 0
    ensures Retryable(p) && Backoff(p, k) != [] && Backoff(p, k)[0] > 0 ==> d == Backoff(p, k)[0]
  {
    if !Retryable(p) then 0
    else
      var b := Backoff(p, k);
      if b == [] || b[0] <= 0 then 0 else b[0]
  }

  /** The limiter's list and the clock just before gate number `k` of a call
      started at `now` with stored list `reqs`, POSTs `0 .. k-1` having been
      retried: each gate is followed by its POST and that POST's pause. */
  function Before(o: nat -> PostOutcome, k: nat, now: int, reqs: seq<int>, maxRequests: nat, window: int): (b: Gated)
    ensures b.time >= now
    ensures k == 0 ==> b == Gated(reqs, now)
  {
    if k == 0 then Gated(reqs, now)
    else
      var p := Before(o, k - 1, now, reqs, maxRequests, window);
      var g := Gate(p.requests, p.time, maxRequests, window);
      Gated(g.requests, g.time + Pause(o(k - 1), k - 1))
  }

  /** The gate of POST number `k`: the list it leaves and the time the POST is sent. */
  function GateOf(o: nat -> PostOutcome, k: nat, now: int, reqs: seq<int>, maxRequests: nat, window: int): (g: Gated)
    ensures g.time >= now
  {
    var b := Before(o, k, now, reqs, maxRequests, window);
    Gate(b.requests, b.time, maxRequests, window)
  }

  /** One retried POST: the state before the next gate is its gate followed by its pause. */
  lemma BeforeStep(o: nat -> PostOutcome, k: nat, now: int, reqs: seq<int>, maxRequests: nat, window: int, gated: Gated)
    requires gated == GateOf(o, k, now, reqs, maxRequests, window)
    ensures Before(o, k + 1, now, reqs, maxRequests, window) == Gated(gated.requests, gated.time + Pause(o(k), k))
  {
  }

  /** The gate of a POST is the gate applied to the state before it. */
  lemma GateOfBefore(o: nat -> PostOutcome, k: nat, now: int, reqs: seq<int>, maxRequests: nat, window: int, before: Gated)
    requires before == Before(o, k, now, reqs, maxRequests, window)
    ensures GateOf(o, k, now, reqs, maxRequests, window) == Gate(before.requests, before.time, maxRequests, window)
  {
  }

  /** Across the gates of a call the limiter's list stays sorted, never holds
      a time after the clock, and never exceeds `maxRequests`. */
  lemma {:induction false} BeforeKeepsOrder(o: nat -> PostOutcome, k: nat, now: int, reqs: seq<int>, maxRequests: nat, window: int)
    requires window > 0
    requires Sorted(reqs) && AllAtMost(reqs, now) && |reqs| <= maxRequests
    ensures var b := Before(o, k, now, reqs, maxRequests, window);
      Sorted(b.requests) && AllAtMost(b.requests, b.time) && |b.requests| <= maxRequests
  {
    if k > 0 {
      BeforeKeepsOrder(o, k - 1, now, reqs, maxRequests, window);
      var p := Before(o, k - 1, now, reqs, maxRequests, window);
      var g := Gate(p.requests, p.time, maxRequests, window);
      GateKeepsOrder(p.requests, p.time, maxRequests, window);
      AtMostWeaken(g.requests, g.time, g.time + Pause(o(k - 1), k - 1));
    }
  }

  /** One gate keeps the list sorted, not after the clock, and within `maxRequests`. */
  lemma GateKeepsOrder(reqs: seq<int>, t: int, maxRequests: nat, window: int)
    requires window > 0
    requires Sorted(reqs) && AllAtMost(reqs, t) && |reqs| <= maxRequests
    ensures var g := Gate(reqs, t, maxRequests, window);
      Sorted(g.requests) && AllAtMost(g.requests, g.time) && |g.requests| <= maxRequests
  {
    var g := Gate(reqs, t, maxRequests, window);
    AdmitKeepsOrder(reqs, t, maxRequests, window);
    AtMostWeaken(g.requests, t, g.time);
  }

  class RequestManager {
    var lastRequestTime: int
    const rateLimiter: RateLimiter

    constructor ()
      ensures lastRequestTime == 0
      ensures fresh(rateLimiter) && rateLimiter.Valid() && rateLimiter.requests == []
      ensures rateLimiter.maxRequests == 30 && rateLimiter.timeWindow == 60
    {
      lastRequestTime := 0;
      rateLimiter := new RateLimiter(30, 60);
    }

    /** The limiter gate at the top of each attempt, at time `t`; the send follows either way. */
    method Throttle(t: int) returns (resumed: int)
      requires rateLimiter.Valid()
      modifies rateLimiter
      ensures rateLimiter.Valid()
      ensures Gated(rateLimiter.requests, resumed) == Gate(old(rateLimiter.requests), t, rateLimiter.maxRequests, rateLimiter.timeWindow)
    {
      var granted := rateLimiter.AllowRequest(t);
      resumed := t;
      if !granted {
        var delay := rateLimiter.GetDelay(t);
        if delay > 0 { resumed := t + delay; }
      }
    }

    /** `send_request` started at time `now`. Time advances only by the sleeps the
        loop performs: the limiter's delay after a denial, the honoured
        `Retry-After`, and the exponential backoff. `waits` lists the retry
        sleeps; the limiter's delays move the clock that `GateOf` follows. The
        limiter ends as the last POST's gate left it, and a returned response
        records the time its POST was sent. */
    method SendRequest(o: nat -> PostOutcome, now: int) returns (outcome: SendOutcome, waits: seq<int>, posts: nat)
      requires rateLimiter.Valid()
      modifies this`lastRequestTime, rateLimiter
      ensures rateLimiter.Valid()
      ensures SendResult(outcome, waits, posts) == Retrying(o, 0)
      ensures var g := GateOf(o, posts - 1, now, old(rateLimiter.requests), rateLimiter.maxRequests, rateLimiter.timeWindow);
        && rateLimiter.requests == g.requests
        && lastRequestTime == (if outcome.Returned? then g.time else old(lastRequestTime))
    {
      var retryCount: nat := 0;
      var t := now;
      waits, posts := [], 0;
      ghost var reqs := rateLimiter.requests;
      ghost var m, w := rateLimiter.maxRequests, rateLimiter.timeWindow;
      ghost var first: nat := retryCount;
      assert waits + Retrying(o, first).waits == Retrying(o, first).waits;
      while retryCount < MaxRetries
        invariant retryCount <= MaxRetries && posts == retryCount && first == 0
        invariant rateLimiter.Valid()
        invariant lastRequestTime == old(lastRequestTime)
        invariant Retrying(o, first) == After(waits, posts, Retrying(o, retryCount))
        invariant Gated(rateLimiter.requests, t) == Before(o, retryCount, now, reqs, m, w)
        decreases MaxRetries - retryCount
      {
        ghost var before := Gated(rateLimiter.requests, t);
        var sent := Throttle(t);
        GateOfBefore(o, retryCount, now, reqs, m, w, before);
        ghost var gated := Gated(rateLimiter.requests, sent);
        var next, wait, ended := Answer(o, retryCount, sent);
        if ended.Some? {
          RetryEnds(o, first, retryCount, waits, posts);
          return ended.value, waits, posts + 1;
        }
        RetryAdvance(o, first, retryCount, waits, posts);
        BeforeStep(o, retryCount, now, reqs, m, w, gated);
        waits := waits + wait;
        posts := posts + 1;
        retryCount := retryCount + 1;
        t := next;
      }
      BeforeStep(o, MaxRetries - 1, now, reqs, m, w, GateOf(o, MaxRetries - 1, now, reqs, m, w));
      outcome := GaveUp;
    }

    /** What follows POST number `k`, sent at time `sent`: a retry after its
        sleep, or the end of the call; a returned response records `sent`. */
    method Answer(o: nat -> PostOutcome, k: nat, sent: int) returns (next: int, wait: seq<int>, ended: Option<SendOutcome>)
      requires k < MaxRetries
      modifies this`lastRequestTime
      ensures Retryable(o(k)) ==> ended.None? && wait == Backoff(o(k), k) && next == sent + Pause(o(k), k)
      ensures !Retryable(o(k)) ==> ended == Some(Final(o(k)))
      ensures lastRequestTime == (if ended.Some? && ended.value.Returned? then sent else old(lastRequestTime))
    {
      next, wait := sent, [];
      match o(k)
      case Received(r) =>
        var check := HandleRateLimit(r);
        if check.Wait? {
          if check.seconds > 0 { next := sent + check.seconds; }
          wait := [check.seconds];
          ended := None;
        } else if check.HeaderError? {
          ended := Some(Raised);
        } else {
          lastRequestTime := sent;
          ended := Some(Returned(r));
        }
      case ClientError =>
        if k + 1 < MaxRetries {
          next := sent + Pow2(k + 1);
          wait := [Pow2(k + 1)];
        }
        ended := None;
      case OtherError =>
        ended := Some(Raised);
    }
  }
}
