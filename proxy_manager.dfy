/** The proxy pool: address normalisation, loading from an API listing or a
    file, per-proxy statistics, cooldown-gated FIFO rotation, health-check
    filtering and selection of the best proxy. Network and file results are
    inputs; the clock is an integer `now`. */
module ProxyManager {
  import opened Options
  import opened Text

  /** The statistics kept per proxy address (`ProxyStats`, all zero when created). */
  datatype ProxyStats = ProxyStats(success: nat, failure: nat, lastUsed: int, responseTime: int)

  const ZeroStats := ProxyStats(0, 0, 0, 0)

  // ---------------------------------------------------------------------
  // Addresses and listings
  // ---------------------------------------------------------------------

  predicate HasScheme(p: string) {
    "http://" <= p || "https://" <= p
  }

  /** `reformat_proxy`: add `http://` to an address that has neither scheme. */
  function ReformatProxy(p: string): (r: string)
    ensures HasScheme(p) ==> r == p
    ensures !HasScheme(p) ==> r == "http://" + p
    ensures HasScheme(r)
  {
    if !("http://" <= p) && !("https://" <= p) then "http://" + p else p
  }

  /** Reformatting an address twice is reformatting it once. */
  lemma ReformatIdempotent(p: string)
    ensures ReformatProxy(ReformatProxy(p)) == ReformatProxy(p)
  {
  }

  /** A listed address: non-blank and already stripped. */
  predicate IsEntry(p: string) {
    p != [] && Strip(p) == p
  }

  /** `[f(l) for l in lines if f(l)]`: the non-empty images of the lines, in order. */
  function NonEmptyImages(lines: seq<string>, f: string -> string): (r: seq<string>)
    ensures |r| <= |lines|
  {
    if lines == [] then []
    else (if f(lines[0]) != [] then [f(lines[0])] else []) + NonEmptyImages(lines[1..], f)
  }

  /** Every non-empty image is listed, nothing else is, and the listing is
      empty iff every image is. */
  lemma {:induction false} NonEmptyImagesMembers(lines: seq<string>, f: string -> string)
    ensures forall i :: 0 <= i < |lines| && f(lines[i]) != [] ==> f(lines[i]) in NonEmptyImages(lines, f)
    ensures forall x :: x in NonEmptyImages(lines, f) ==> x != [] && exists i :: 0 <= i < |lines| && x == f(lines[i])
    ensures NonEmptyImages(lines, f) == [] <==> forall i :: 0 <= i < |lines| ==> f(lines[i]) == []
    decreases |lines|
  {
    if lines != [] {
      var tail := lines[1..];
      NonEmptyImagesMembers(tail, f);
      assert forall i :: 1 <= i < |lines| ==> lines[i] == tail[i - 1];
      forall x | x in NonEmptyImages(lines, f)
        ensures exists i :: 0 <= i < |lines| && x == f(lines[i])
      {
        if x !in NonEmptyImages(tail, f) {
          assert x == f(lines[0]);
        } else {
          var i :| 0 <= i < |tail| && x == f(tail[i]);
          assert x == f(lines[i + 1]);
        }
      }
    }
  }

  lemma {:induction false} NonEmptyImagesAppend(a: seq<string>, b: seq<string>, f: string -> string)
    ensures NonEmptyImages(a + b, f) == NonEmptyImages(a, f) + NonEmptyImages(b, f)
    decreases |a|
  {
    if a == [] {
      assert a + b == b;
    } else {
      var head := if f(a[0]) != [] then [f(a[0])] else [];
      NonEmptyImagesAppend(a[1..], b, f);
      assert (a + b)[0] == a[0] && (a + b)[1..] == a[1..] + b;
      assert NonEmptyImages(a + b, f) == head + NonEmptyImages(a[1..] + b, f);
      assert NonEmptyImages(a, f) == head + NonEmptyImages(a[1..], f);
    }
  }

  /** The members of a listing of stripped lines are already stripped. */
  lemma StrippedImages(lines: seq<string>)
    ensures forall x :: x in NonEmptyImages(lines, Strip) ==> IsEntry(x)
  {
    NonEmptyImagesMembers(lines, Strip);
    forall x | x in NonEmptyImages(lines, Strip)
      ensures IsEntry(x)
    {
      var i :| 0 <= i < |lines| && x == Strip(lines[i]);
      StripIdempotent(lines[i]);
    }
  }

  /** The API listing: the stripped, non-blank lines, in order. */
  function ParseApiLines(lines: seq<string>): (r: seq<string>)
    ensures |r| <= |lines|
    ensures forall i :: 0 <= i < |r| ==> IsEntry(r[i])
  {
    StrippedImages(lines);
    NonEmptyImages(lines, Strip)
  }

  /** Every non-blank line contributes its stripped text, nothing else is
      listed, and the listing is empty iff every line is blank. */
  lemma ParseApiMembers(lines: seq<string>)
    ensures forall i :: 0 <= i < |lines| && !AllSpace(lines[i]) ==> Strip(lines[i]) in ParseApiLines(lines)
    ensures forall x :: x in ParseApiLines(lines) ==> exists i :: 0 <= i < |lines| && x == Strip(lines[i])
    ensures ParseApiLines(lines) == [] <==> forall i :: 0 <= i < |lines| ==> AllSpace(lines[i])
  {
    NonEmptyImagesMembers(lines, Strip);
  }

  /** A one-line listing: its stripped text, or nothing for a blank line. */
  lemma ParseApiOne(line: string)
    ensures ParseApiLines([line]) == if AllSpace(line) then [] else [Strip(line)]
  {
    assert [line][1..] == [];
  }

  /** Listings concatenate: the lines of `a` and then those of `b`. */
  lemma ParseApiAppend(a: seq<string>, b: seq<string>)
    ensures ParseApiLines(a + b) == ParseApiLines(a) + ParseApiLines(b)
  {
    NonEmptyImagesAppend(a, b, Strip);
  }

  /** The proxy file: the stripped, non-blank lines, in order, each reformatted. */
  function ParseFileLines(lines: seq<string>): (r: seq<string>)
    ensures |r| <= |lines|
    ensures forall i :: 0 <= i < |r| ==> HasScheme(r[i])
  {
    if lines == [] then []
    else
      var head := Strip(lines[0]);
      (if head != [] then [ReformatProxy(head)] else []) + ParseFileLines(lines[1..])
  }

  function MapReformat(s: seq<string>): (r: seq<string>)
    ensures |r| == |s|
    ensures forall i :: 0 <= i < |s| ==> r[i] == ReformatProxy(s[i])
  {
    if s == [] then [] else [ReformatProxy(s[0])] + MapReformat(s[1..])
  }

  /** Both listings keep the same lines; the file additionally normalises each address. */
  lemma {:induction false} FileIsReformattedApi(lines: seq<string>)
    ensures ParseFileLines(lines) == MapReformat(ParseApiLines(lines))
  {
    if lines != [] {
      FileIsReformattedApi(lines[1..]);
      var head := Strip(lines[0]);
      if head != [] {
        assert MapReformat([head] + ParseApiLines(lines[1..])) == [ReformatProxy(head)] + MapReformat(ParseApiLines(lines[1..]));
      } else {
        assert ParseApiLines(lines) == ParseApiLines(lines[1..]);
      }
    }
  }

  /** The answer of the listing API: a status and the lines of its body, or a request exception. */
  datatype ApiReply = ApiResponse(status: int, lines: seq<string>) | ApiRequestFailed

  /** The proxy file: its lines, or `FileNotFoundError`. */
  datatype ProxyFile = FileLines(lines: seq<string>) | FileNotFound

  /** The proxy list after a listing request: replaced on status 200, kept otherwise. */
  function AfterApi(current: seq<string>, reply: ApiReply): (r: seq<string>)
    ensures reply.ApiResponse? && reply.status == 200 ==> r == ParseApiLines(reply.lines)
    ensures !(reply.ApiResponse? && reply.status == 200) ==> r == current
  {
    if reply.ApiResponse? && reply.status == 200 then ParseApiLines(reply.lines) else current
  }

  /** The proxy list after reading the file: replaced when it exists, kept otherwise. */
  function AfterFile(current: seq<string>, file: ProxyFile): seq<string> {
    if file.FileLines? then ParseFileLines(file.lines) else current
  }

  /** The list `initialize_proxies` ends with: the API first, the file only if that left the list empty. */
  function InitialProxies(current: seq<string>, apiConfigured: bool, reply: ApiReply,
                          fileConfigured: bool, file: ProxyFile): (r: seq<string>)
    ensures var fromApi := if apiConfigured then AfterApi(current, reply) else current;
      && (fromApi != [] ==> r == fromApi)
      && (fromApi == [] && fileConfigured ==> r == AfterFile(fromApi, file))
      && (fromApi == [] && !fileConfigured ==> r == [])
  {
    var fromApi := if apiConfigured then AfterApi(current, reply) else current;
    if fromApi == [] && fileConfigured then AfterFile(fromApi, file) else fromApi
  }

  // ---------------------------------------------------------------------
  // Statistics
  // ---------------------------------------------------------------------

  /** `update_proxy_stats` on one record: exactly one counter rises by one,
      the latency is recorded only on success, and `last_used` becomes `now`. */
  function Recorded(s: ProxyStats, success: bool, responseTime: int, now: int): (r: ProxyStats)
    ensures r.success + r.failure == s.success + s.failure + 1
    ensures success ==> r.success == s.success + 1 && r.failure == s.failure && r.responseTime == responseTime
    ensures !success ==> r.failure == s.failure + 1 && r.success == s.success && r.responseTime == s.responseTime
    ensures r.lastUsed == now
  {
    if success then s.(success := s.success + 1, responseTime := responseTime, lastUsed := now)
    else s.(failure := s.failure + 1, lastUsed := now)
  }

  function StatsOf(stats: map<string, ProxyStats>, p: string): ProxyStats {
    if p in stats then stats[p] else ZeroStats
  }

  /** What one health check yields: a response with its status and latency, or an exception. */
  datatype HealthOutcome = Reached(status: int, latency: int) | Unreachable

  /** `_check_proxy_health`'s verdict: only a 200 counts as healthy. */
  predicate Healthy(h: HealthOutcome) {
    h.Reached? && h.status == 200
  }

  /** The record a health check with answer `h` leaves on top of `s`. */
  function Checked(s: ProxyStats, h: HealthOutcome, now: int): ProxyStats {
    Recorded(s, h.Reached?, if h.Reached? then h.latency else 0, now)
  }

  /** Statistics after checking `proxies` in order, answer `health(i)` for the i-th:
      every checked proxy gains a record and an unchecked one keeps its own. */
  function RecordAll(stats: map<string, ProxyStats>, proxies: seq<string>, health: nat -> HealthOutcome, now: int): (r: map<string, ProxyStats>)
    ensures r.Keys == stats.Keys + set i | 0 <= i < |proxies| :: proxies[i]
    ensures forall p :: p in stats && p !in proxies ==> r[p] == stats[p]
    decreases |proxies|
  {
    if proxies == [] then stats
    else
      var n := |proxies| - 1;
      var before := RecordAll(stats, proxies[..n], health, now);
      var h := health(n);
      var p := proxies[n];
      assert (set i | 0 <= i < |proxies| :: proxies[i]) == (set i | 0 <= i < n :: proxies[..n][i]) + {p};
      assert forall q :: q !in proxies ==> q !in proxies[..n];
      before[p := Checked(StatsOf(before, p), h, now)]
  }

  /** Checking one more proxy updates its record alone, on top of the earlier checks. */
  lemma RecordAllStep(stats: map<string, ProxyStats>, proxies: seq<string>, p: string, health: nat -> HealthOutcome, now: int)
    ensures var before := RecordAll(stats, proxies, health, now);
      RecordAll(stats, proxies + [p], health, now) == before[p := Checked(StatsOf(before, p), health(|proxies|), now)]
  {
    assert (proxies + [p])[..|proxies|] == proxies;
  }

  /** A proxy that is not checked keeps its record, or its absence. */
  lemma RecordAllUnlisted(stats: map<string, ProxyStats>, proxies: seq<string>, health: nat -> HealthOutcome, now: int, p: string)
    requires p !in proxies
    ensures StatsOf(RecordAll(stats, proxies, health, now), p) == StatsOf(stats, p)
  {
    var r := RecordAll(stats, proxies, health, now);
    if p !in stats {
      assert p !in set i | 0 <= i < |proxies| :: proxies[i];
      assert p !in r;
    }
  }

  /** A proxy listed once ends with its own record after its own check alone. */
  lemma {:induction false} RecordAllListedOnce(stats: map<string, ProxyStats>, proxies: seq<string>, health: nat -> HealthOutcome,
                                               now: int, i: nat)
    requires i < |proxies| && forall j :: 0 <= j < |proxies| && j != i ==> proxies[j] != proxies[i]
    ensures RecordAll(stats, proxies, health, now)[proxies[i]] == Checked(StatsOf(stats, proxies[i]), health(i), now)
    decreases |proxies|
  {
    var n := |proxies| - 1;
    var prefix := proxies[..n];
    assert proxies == prefix + [proxies[n]];
    RecordAllStep(stats, prefix, proxies[n], health, now);
    if i == n {
      RecordAllUnlisted(stats, prefix, health, now, proxies[i]);
    } else {
      assert prefix[i] == proxies[i];
      RecordAllListedOnce(stats, prefix, health, now, i);
    }
  }

  /** The elements of `s` at the positions where `keep` holds, in order. */
  function Kept(s: seq<string>, keep: nat -> bool): (r: seq<string>)
    ensures |r| <= |s|
    ensures multiset(r) <= multiset(s)
    decreases |s|
  {
    if s == [] then []
    else
      var n := |s| - 1;
      var before := Kept(s[..n], keep);
      assert s == s[..n] + [s[n]];
      if keep(n) then before + [s[n]] else before
  }

  /** Nothing is dropped iff every check passed. */
  lemma {:induction false} KeptAll(s: seq<string>, keep: nat -> bool)
    ensures Kept(s, keep) == s <==> forall i :: 0 <= i < |s| ==> keep(i)
  {
    if forall i :: 0 <= i < |s| ==> keep(i) {
      KeptEverything(s, keep);
    } else {
      var j :| 0 <= j < |s| && !keep(j);
      KeptDrops(s, keep, j);
    }
  }

  lemma {:induction false} KeptEverything(s: seq<string>, keep: nat -> bool)
    requires forall i :: 0 <= i < |s| ==> keep(i)
    ensures Kept(s, keep) == s
    decreases |s|
  {
    if s != [] {
      var n := |s| - 1;
      KeptEverything(s[..n], keep);
      assert s == s[..n] + [s[n]];
    }
  }

  lemma {:induction false} KeptDrops(s: seq<string>, keep: nat -> bool, j: nat)
    requires j < |s| && !keep(j)
    ensures |Kept(s, keep)| < |s|
    decreases |s|
  {
    var n := |s| - 1;
    if j < n {
      KeptDrops(s[..n], keep, j);
    }
  }

  /** Nothing is kept iff no check passed. */
  lemma {:induction false} KeptNone(s: seq<string>, keep: nat -> bool)
    ensures Kept(s, keep) == [] <==> forall i :: 0 <= i < |s| ==> !keep(i)
    decreases |s|
  {
    if s != [] {
      KeptNone(s[..|s| - 1], keep);
    }
  }

  /** The per-position verdicts of a round of health checks. */
  function HealthyAt(health: nat -> HealthOutcome): nat -> bool {
    (i: nat) => Healthy(health(i))
  }

  /** Result of a selection: a proxy, nothing to choose from, or a `KeyError`
      for an address that has no statistics. */
  datatype Pick = Picked(proxy: string) | NoProxy | KeyError(proxy: string)

  /** The cooldown test of `get_next_proxy`: used less than `interval` ago. */
  predicate InCooldown(stats: map<string, ProxyStats>, p: string, now: int, interval: int) {
    p in stats && now - stats[p].lastUsed < interval
  }

  /** The position of the first queued proxy `get_next_proxy` does not skip
      (it is eligible or has no statistics), or `|pool|` if all are in cooldown. */
  function FirstStop(pool: seq<string>, stats: map<string, ProxyStats>, now: int, interval: int): (k: nat)
    ensures k <= |pool|
    ensures forall i :: 0 <= i < k ==> InCooldown(stats, pool[i], now, interval)
    ensures k < |pool| ==> !InCooldown(stats, pool[k], now, interval)
    decreases |pool|
  {
    if pool == [] then 0
    else if InCooldown(stats, pool[0], now, interval) then 1 + FirstStop(pool[1..], stats, now, interval)
    else 0
  }

  /** Skip-and-requeue moves the skipped prefix behind the rest: the queue keeps
      every proxy but the one taken out. */
  lemma RotationMultiset(pool: seq<string>, k: nat)
    requires k < |pool|
    ensures multiset(pool[k + 1..] + pool[..k]) == multiset(pool) - multiset{pool[k]}
  {
    assert pool == pool[..k] + [pool[k]] + pool[k + 1..];
  }

  /** `FirstStop` is the one position `j` before which every proxy is in cooldown and at which none is. */
  lemma FirstStopIs(pool: seq<string>, stats: map<string, ProxyStats>, now: int, interval: int, j: nat)
    requires j <= |pool|
    requires forall i :: 0 <= i < j ==> InCooldown(stats, pool[i], now, interval)
    requires j < |pool| ==> !InCooldown(stats, pool[j], now, interval)
    ensures FirstStop(pool, stats, now, interval) == j
  {
  }

  /** Taking the head of the rotated queue `pool[s..] + pool[..s]` and requeueing it rotates by one more. */
  lemma RotateStep(pool: seq<string>, s: nat)
    requires s < |pool|
    ensures (pool[s..] + pool[..s])[0] == pool[s]
    ensures (pool[s..] + pool[..s])[1..] == pool[s + 1..] + pool[..s]
    ensures (pool[s..] + pool[..s])[1..] + [pool[s]] == pool[s + 1..] + pool[..s + 1]
  {
    assert pool[..s + 1] == pool[..s] + [pool[s]];
  }

  lemma FullRotation(pool: seq<string>)
    ensures pool[|pool|..] + pool[..|pool|] == pool
  {
  }

  // ---------------------------------------------------------------------
  // Best proxy: the first valid proxy minimising
  // (failure / max(1, success), response_time), compared exactly.
  // ---------------------------------------------------------------------

  function Denominator(s: ProxyStats): nat {
    if s.success < 1 then 1 else s.success
  }

  /** `a`'s key is smaller than `b`'s: a smaller failure ratio, or the same ratio and a smaller latency. */
  predicate KeyLess(a: ProxyStats, b: ProxyStats) {
    var x, y := a.failure * Denominator(b), b.failure * Denominator(a);
    x < y || (x == y && a.responseTime < b.responseTime)
  }

  /** The cross-multiplication identity behind comparing fractions with positive denominators. */
  lemma CrossProducts(x1: int, m1: int, x2: int, m2: int, x3: int, m3: int)
    ensures (x1 * m2 - x2 * m1) * m3 + (x2 * m3 - x3 * m2) * m1 == (x1 * m3 - x3 * m1) * m2
  {
  }

  lemma SignOfProduct(d: int, m: int)
    requires m > 0
    ensures (d < 0 <==> d * m < 0) && (d == 0 <==> d * m == 0)
  {
  }

  /** `KeyLess` followed by not-greater is `KeyLess`, and so is not-greater followed by `KeyLess`. */
  lemma KeyOrder(a: ProxyStats, b: ProxyStats, c: ProxyStats)
    ensures KeyLess(a, b) && !KeyLess(c, b) ==> KeyLess(a, c)
    ensures !KeyLess(b, a) && KeyLess(b, c) ==> KeyLess(a, c)
  {
    var ma, mb, mc := Denominator(a), Denominator(b), Denominator(c);
    var dab := a.failure * mb - b.failure * ma;
    var dbc := b.failure * mc - c.failure * mb;
    var dac := a.failure * mc - c.failure * ma;
    CrossProducts(a.failure, ma, b.failure, mb, c.failure, mc);
    SignOfProduct(dab, mc);
    SignOfProduct(dbc, ma);
    SignOfProduct(dac, mb);
    assert KeyLess(a, b) <==> dab < 0 || (dab == 0 && a.responseTime < b.responseTime);
    assert KeyLess(c, b) <==> dbc > 0 || (dbc == 0 && c.responseTime < b.responseTime);
    assert KeyLess(b, a) <==> dab > 0 || (dab == 0 && b.responseTime < a.responseTime);
    assert KeyLess(b, c) <==> dbc < 0 || (dbc == 0 && b.responseTime < c.responseTime);
    assert KeyLess(a, c) <==> dac < 0 || (dac == 0 && a.responseTime < c.responseTime);
  }

  /** `best` is the first position of a minimal key among `s[..i]`. */
  predicate FirstMinimum(s: seq<string>, stats: map<string, ProxyStats>, i: nat, best: nat)
    requires best < i <= |s|
    requires forall j :: 0 <= j < i ==> s[j] in stats
  {
    && (forall j :: 0 <= j < i ==> !KeyLess(stats[s[j]], stats[s[best]]))
    && (forall j :: 0 <= j < best ==> KeyLess(stats[s[best]], stats[s[j]]))
  }

  /** `p` is, at some position, the first minimum of `s`, all of whose addresses have statistics. */
  predicate IsFirstMinimum(s: seq<string>, stats: map<string, ProxyStats>, p: string) {
    && (forall j :: 0 <= j < |s| ==> s[j] in stats)
    && exists k :: 0 <= k < |s| && p == s[k] && FirstMinimum(s, stats, |s|, k)
  }

  /** `p` is the first address of `s` without statistics, found at or after `from`. */
  predicate IsFirstMissing(s: seq<string>, stats: map<string, ProxyStats>, from: nat, p: string) {
    exists k :: from <= k < |s| && p == s[k] && s[k] !in stats && (forall j :: 0 <= j < k ==> s[j] in stats)
  }

  /** Python's `min(s, key=...)` from position `i` on, with `best` the minimum of `s[..i]`:
      keys are looked up in order, so the first address without statistics raises. */
  function MinFrom(s: seq<string>, stats: map<string, ProxyStats>, i: nat, best: nat): (r: Pick)
    requires best < i <= |s|
    requires forall j :: 0 <= j < i ==> s[j] in stats
    requires FirstMinimum(s, stats, i, best)
    ensures r.Picked? ==> IsFirstMinimum(s, stats, r.proxy)
    ensures r.KeyError? ==> IsFirstMissing(s, stats, i, r.proxy)
    ensures !r.NoProxy?
    decreases |s| - i
  {
    if i == |s| then Picked(s[best])
    else if s[i] !in stats then KeyError(s[i])
    else if KeyLess(stats[s[i]], stats[s[best]]) then
      forall j | 0 <= j < i ensures !KeyLess(stats[s[j]], stats[s[i]]) && KeyLess(stats[s[i]], stats[s[j]]) {
        KeyOrder(stats[s[j]], stats[s[i]], stats[s[best]]);
        KeyOrder(stats[s[i]], stats[s[best]], stats[s[j]]);
      }
      MinFrom(s, stats, i + 1, i)
    else
      MinFrom(s, stats, i + 1, best)
  }

  /** `[p for p in proxies if is_proxy_valid(p)]`. */
  function Valid(proxies: seq<string>, isValid: string -> bool): (r: seq<string>)
    ensures forall i :: 0 <= i < |r| ==> isValid(r[i]) && r[i] in proxies
    ensures r == [] <==> forall i :: 0 <= i < |proxies| ==> !isValid(proxies[i])
  {
    if proxies == [] then []
    else (if isValid(proxies[0]) then [proxies[0]] else []) + Valid(proxies[1..], isValid)
  }

  /** `get_best_proxy`. `NoProxy` iff no proxy passes the validity predicate;
      otherwise the first valid proxy (in list order) with a minimal key, or a
      `KeyError` for the first valid proxy that has no statistics. */
  function BestProxy(proxies: seq<string>, stats: map<string, ProxyStats>, isValid: string -> bool): (r: Pick)
    ensures var v := Valid(proxies, isValid);
      && (r.NoProxy? <==> v == [])
      && (r.Picked? ==> IsFirstMinimum(v, stats, r.proxy))
      && (r.KeyError? ==> IsFirstMissing(v, stats, 0, r.proxy))
  {
    var v := Valid(proxies, isValid);
    if v == [] then NoProxy
    else if v[0] !in stats then KeyError(v[0])
    else MinFrom(v, stats, 1, 0)
  }

  /** A chosen proxy's key is no larger than any valid proxy's key, and strictly
      smaller than that of every valid proxy listed before it. */
  lemma BestProxyIsFirstMinimum(proxies: seq<string>, stats: map<string, ProxyStats>, isValid: string -> bool, q: string)
    requires BestProxy(proxies, stats, isValid).Picked?
    requires q in proxies && isValid(q)
    ensures var p := BestProxy(proxies, stats, isValid).proxy;
      p in proxies && isValid(p) && p in stats && q in stats && !KeyLess(stats[q], stats[p])
  {
    var v := Valid(proxies, isValid);
    var p := BestProxy(proxies, stats, isValid).proxy;
    var k :| 0 <= k < |v| && p == v[k] && FirstMinimum(v, stats, |v|, k);
    ValidContains(proxies, isValid, q);
    var j :| 0 <= j < |v| && v[j] == q;
    assert !KeyLess(stats[v[j]], stats[v[k]]);
  }

  lemma {:induction false} ValidContains(proxies: seq<string>, isValid: string -> bool, q: string)
    requires q in proxies && isValid(q)
    ensures q in Valid(proxies, isValid)
  {
    if proxies[0] != q { ValidContains(proxies[1..], isValid, q); }
  }

  /** The health comparison ignores scale: 1 failure in 2 successes ties with 2 in 4, so latency decides. */
  lemma RatioTieUsesLatency()
    ensures KeyLess(ProxyStats(2, 1, 0, 5), ProxyStats(4, 2, 0, 7))
    ensures !KeyLess(ProxyStats(4, 2, 0, 7), ProxyStats(2, 1, 0, 5))
  {
  }

  /** A proxy handed out by `get_random_proxy`: the same address for both schemes. */
  datatype ProxyChoice = ProxyChoice(http: string, https: string)

  class ProxyManager {
    var proxies: seq<string>
    var proxyStats: map<string, ProxyStats>
    var proxyPool: seq<string>
    const apiConfigured: bool
    const fileConfigured: bool
    const minProxyRotationInterval: int

    constructor (apiConfigured: bool, fileConfigured: bool, minProxyRotationInterval: int := 30)
      ensures proxies == [] && proxyStats == map[] && proxyPool == []
      ensures this.apiConfigured == apiConfigured && this.fileConfigured == fileConfigured
      ensures this.minProxyRotationInterval == minProxyRotationInterval
    {
      proxies := [];
      proxyStats := map[];
      proxyPool := [];
      this.apiConfigured := apiConfigured;
      this.fileConfigured := fileConfigured;
      this.minProxyRotationInterval := minProxyRotationInterval;
    }

    /** `fetch_proxies_from_api`: nothing happens without an API address. */
    method FetchProxiesFromApi(reply: ApiReply)
      modifies this`proxies
      ensures proxies == if apiConfigured then AfterApi(old(proxies), reply) else old(proxies)
    {
      if !apiConfigured {
        return;
      }
      if reply.ApiResponse? && reply.status == 200 {
        proxies := ParseApiLines(reply.lines);
      }
    }

    /** `fetch_proxies_from_new_api`: the same parsing for a caller-given address. */
    method FetchProxiesFromNewApi(reply: ApiReply)
      modifies this`proxies
      ensures proxies == AfterApi(old(proxies), reply)
    {
      if reply.ApiResponse? && reply.status == 200 {
        proxies := ParseApiLines(reply.lines);
      }
    }

    /** `load_proxies_from_file`: nothing happens without a file name. */
    method LoadProxiesFromFile(file: ProxyFile)
      modifies this`proxies
      ensures proxies == if fileConfigured then AfterFile(old(proxies), file) else old(proxies)
    {
      if !fileConfigured {
        return;
      }
      if file.FileLines? {
        proxies := ParseFileLines(file.lines);
      }
    }

    /** `initialize_proxies`: the file is consulted only when the API produced
        nothing, and the resulting proxies are enqueued in list order. */
    method InitializeProxies(reply: ApiReply, file: ProxyFile)
      modifies this`proxies, this`proxyPool
      ensures proxies == InitialProxies(old(proxies), apiConfigured, reply, fileConfigured, file)
      ensures proxyPool == old(proxyPool) + proxies
    {
      if apiConfigured {
        FetchProxiesFromApi(reply);
      }
      assert proxies == if apiConfigured then AfterApi(old(proxies), reply) else old(proxies);
      if proxies == [] && fileConfigured {
        LoadProxiesFromFile(file);
      }
      assert proxies == InitialProxies(old(proxies), apiConfigured, reply, fileConfigured, file);
      if proxies == [] {
        return;
      }
      Enqueue(proxies);
    }

    /** The loop of `initialize_proxies` that puts each listed proxy on the queue, in order. */
    method Enqueue(listed: seq<string>)
      modifies this`proxyPool
      ensures proxyPool == old(proxyPool) + listed
    {
      for i := 0 to |listed|
        invariant proxyPool == old(proxyPool) + listed[..i]
      {
        proxyPool := proxyPool + [listed[i]];
      }
    }

    /** `get_random_proxy`: any listed proxy, or `None` when the list is empty. */
    method GetRandomProxy() returns (r: Option<ProxyChoice>)
      ensures r.None? <==> proxies == []
      ensures r.Some? ==> r.value.http in proxies && r.value.https == r.value.http
    {
      if proxies == [] {
        return None;
      }
      assert proxies[0] in proxies;
      var p :| p in proxies;
      r := Some(ProxyChoice(p, p));
    }

    /** `get_next_proxy` at time `now`, as a bounded rotation: at most one pass over
        the queue, skipping and requeueing proxies in cooldown; `KeyError` for a
        proxy without statistics, which is then no longer queued. */
    method GetNextProxy(now: int) returns (r: Pick)
      modifies this`proxyPool
      ensures var pool := old(proxyPool);
        var k := FirstStop(pool, proxyStats, now, minProxyRotationInterval);
        && (k == |pool| ==> r == NoProxy && proxyPool == pool)
        && (k < |pool| ==> proxyPool == pool[k + 1..] + pool[..k])
        && (k < |pool| && pool[k] in proxyStats ==> r == Picked(pool[k]))
        && (k < |pool| && pool[k] !in proxyStats ==> r == KeyError(pool[k]))
    {
      ghost var pool := proxyPool;
      var skipped := 0;
      while skipped < |proxyPool|
        invariant skipped <= |pool| == |proxyPool|
        invariant proxyPool == pool[skipped..] + pool[..skipped]
        invariant forall i :: 0 <= i < skipped ==> InCooldown(proxyStats, pool[i], now, minProxyRotationInterval)
        decreases |pool| - skipped
      {
        RotateStep(pool, skipped);
        var p := proxyPool[0];
        proxyPool := proxyPool[1..];
        if p !in proxyStats {
          FirstStopIs(pool, proxyStats, now, minProxyRotationInterval, skipped);
          return KeyError(p);
        }
        if now - proxyStats[p].lastUsed < minProxyRotationInterval {
          proxyPool := proxyPool + [p];
          skipped := skipped + 1;
        } else {
          FirstStopIs(pool, proxyStats, now, minProxyRotationInterval, skipped);
          return Picked(p);
        }
      }
      FirstStopIs(pool, proxyStats, now, minProxyRotationInterval, skipped);
      FullRotation(pool);
      r := NoProxy;
    }

    /** `update_proxy_stats` at time `now`: creates a zeroed record if needed; no other record changes. */
    method UpdateProxyStats(proxy: string, success: bool, responseTime: int, now: int)
      modifies this`proxyStats
      ensures proxyStats == old(proxyStats)[proxy := Recorded(StatsOf(old(proxyStats), proxy), success, responseTime, now)]
    {
      if proxy !in proxyStats {
        proxyStats := proxyStats[proxy := ZeroStats];
      }
      var stats := proxyStats[proxy];
      if success {
        stats := stats.(success := stats.success + 1, responseTime := responseTime);
      } else {
        stats := stats.(failure := stats.failure + 1);
      }
      proxyStats := proxyStats[proxy := stats.(lastUsed := now)];
    }

    /** `_check_proxy_health`: any response is recorded as a success with its
        latency before its status is compared with 200; an exception is a failure. */
    method CheckProxyHealth(proxy: string, outcome: HealthOutcome, now: int) returns (healthy: bool)
      modifies this`proxyStats
      ensures healthy == Healthy(outcome)
      ensures proxyStats == old(proxyStats)[proxy := Checked(StatsOf(old(proxyStats), proxy), outcome, now)]
    {
      match outcome
      case Reached(status, latency) =>
        UpdateProxyStats(proxy, true, latency, now);
        healthy := status == 200;
      case Unreachable =>
        UpdateProxyStats(proxy, false, 0, now);
        healthy := false;
    }

    /** `validate_all_proxies`: check every proxy (answer `health(i)` for the i-th),
        then keep, in order, exactly those whose check returned true. */
    method ValidateAllProxies(health: nat -> HealthOutcome, now: int)
      modifies this`proxies, this`proxyStats
      ensures proxyStats == RecordAll(old(proxyStats), old(proxies), health, now)
      ensures proxies == Kept(old(proxies), HealthyAt(health))
    {
      var listed := proxies;
      var results := CheckAll(listed, health, now);
      proxies := KeepValid(listed, results, health);
    }

    /** The health checks of `validate_all_proxies`, one per listed proxy in order. */
    method CheckAll(listed: seq<string>, health: nat -> HealthOutcome, now: int) returns (results: seq<bool>)
      modifies this`proxyStats
      ensures |results| == |listed|
      ensures forall j :: 0 <= j < |listed| ==> results[j] == Healthy(health(j))
      ensures proxyStats == RecordAll(old(proxyStats), listed, health, now)
    {
      results := [];
      for i := 0 to |listed|
        invariant |results| == i
        invariant forall j :: 0 <= j < i ==> results[j] == Healthy(health(j))
        invariant proxyStats == RecordAll(old(proxyStats), listed[..i], health, now)
      {
        assert listed[..i + 1][..i] == listed[..i];
        ghost var prev := proxyStats;
        var ok := CheckProxyHealth(listed[i], health(i), now);
        assert proxyStats == prev[listed[i] := Checked(StatsOf(prev, listed[i]), health(i), now)];
        results := results + [ok];
      }
      assert listed[..|listed|] == listed;
    }

    /** The `zip` over proxies and results that keeps the healthy ones. */
    static method KeepValid(listed: seq<string>, results: seq<bool>, health: nat -> HealthOutcome) returns (validProxies: seq<string>)
      requires |results| == |listed|
      requires forall j :: 0 <= j < |listed| ==> results[j] == Healthy(health(j))
      ensures validProxies == Kept(listed, HealthyAt(health))
    {
      validProxies := [];
      for i := 0 to |listed|
        invariant validProxies == Kept(listed[..i], HealthyAt(health))
      {
        assert listed[..i + 1][..i] == listed[..i];
        if results[i] {
          validProxies := validProxies + [listed[i]];
        }
      }
      assert listed[..|listed|] == listed;
    }

    /** `get_best_proxy` with `is_proxy_valid` as a predicate: `None` iff no
        listed proxy is valid, otherwise a valid listed proxy, or the
        `KeyError` of a valid listed proxy that has no statistics. */
    function GetBestProxy(isValid: string -> bool): (r: Pick)
      reads this
      ensures r.NoProxy? <==> forall i :: 0 <= i < |proxies| ==> !isValid(proxies[i])
      ensures !r.NoProxy? ==> r.proxy in proxies && isValid(r.proxy)
      ensures r.Picked? ==> r.proxy in proxyStats
      ensures r.KeyError? ==> r.proxy !in proxyStats
    {
      BestProxy(proxies, proxyStats, isValid)
    }
  }
}
