/** The orchestration of a login attempt campaign: the encoded password
    field, classification of a login response, progress counters, the
    sequential dictionary and random loops, the choice between them and the
    contiguous partition of a password list among threads. Responses, the
    clock and login verdicts are inputs. */
module BruteForce {
  import opened Options
  import opened Text
  import opened UrlQuote
  import RM = RequestManager
  import Mon = Monitoring

  // ---------------------------------------------------------------------
  // The encoded password field
  // ---------------------------------------------------------------------

  /** The browser tag at the head of the field. */
  const BrowserTag := "PWD_INSTAGRAM_BROWSER"

  /** `#<tag>:0:`, the fixed head of the field. */
  function FieldPrefix(tag: string): string {
    "#" + tag + ":" + "0" + ":"
  }

  /** The text `encode_password` quotes: prefix, the whole-second timestamp, a colon, the password. */
  function FieldText(timestamp: nat, password: string): string {
    FieldPrefix(BrowserTag) + NatToString(timestamp) + ":" + password
  }

  /** `encode_password` with the time `timestamp` in whole seconds. */
  function EncodePassword(timestamp: nat, password: string): (r: string)
    ensures Unquote(r) == Some(FieldText(timestamp, password))
    ensures forall i :: 0 <= i < |r| ==> r[i] as int < 0x80
  {
    QuoteRoundTrip(FieldText(timestamp, password));
    Quote(FieldText(timestamp, password))
  }

  /** A character below 0x80 is quoted as its single byte. */
  lemma QuoteAscii(c: char)
    requires c as int < 0x80
    ensures Quote([c]) == QuoteByte(c as int)
  {
    assert [c][1..] == [];
    assert Utf8Encode([c]) == [c as int];
    assert [c as int][1..] == [];
    assert QuoteBytes([c as int]) == QuoteByte(c as int) + QuoteBytes([]);
  }

  lemma QuoteDigits(s: string)
    requires forall i :: 0 <= i < |s| ==> '0' <= s[i] <= '9'
    ensures Quote(s) == s
  {
    QuoteKeepsSafe(s);
  }

  /** Upper-case letters and underscores are left as they are. */
  lemma QuoteWord(s: string)
    requires forall i :: 0 <= i < |s| ==> 'A' <= s[i] <= 'Z' || s[i] == '_'
    ensures Quote(s) == s
  {
    QuoteKeepsSafe(s);
  }

  lemma HashQuoted()
    ensures Quote("#") == "%23"
  {
    QuoteAscii('#');
    assert QuoteByte('#' as int) == "%23";
  }

  lemma ColonQuoted()
    ensures Quote(":") == "%3A"
  {
    QuoteAscii(':');
    assert QuoteByte(':' as int) == "%3A";
  }

  lemma QuoteJoined(hash: string, tag: string, colon: string, zero: string)
    requires Quote(hash) == "%23" && Quote(tag) == tag && Quote(colon) == "%3A" && Quote(zero) == zero
    ensures Quote(hash + tag + colon + zero + colon) == "%23" + tag + "%3A" + zero + "%3A"
  {
    QuoteAppend(hash, tag);
    QuoteAppend(hash + tag, colon);
    QuoteAppend(hash + tag + colon, zero);
    QuoteAppend(hash + tag + colon + zero, colon);
  }

  /** The prefix of an upper-case tag quotes to `%23<tag>%3A0%3A`: `#` and `:` are escaped, the rest is kept. */
  lemma PrefixQuoted(tag: string)
    requires forall i :: 0 <= i < |tag| ==> 'A' <= tag[i] <= 'Z' || tag[i] == '_'
    ensures Quote(FieldPrefix(tag)) == "%23" + tag + "%3A0%3A"
  {
    QuoteWord(tag);
    QuoteDigits("0");
    HashQuoted();
    ColonQuoted();
    QuoteJoined("#", tag, ":", "0");
  }

  /** The encoded field is `%23PWD_INSTAGRAM_BROWSER%3A0%3A`, the timestamp's digits as they are, `%3A`, and the quoted password. */
  lemma EncodedLayout(timestamp: nat, password: string)
    ensures EncodePassword(timestamp, password) == "%23" + BrowserTag + "%3A0%3A" + NatToString(timestamp) + "%3A" + Quote(password)
  {
    var prefix, digits := FieldPrefix(BrowserTag), NatToString(timestamp);
    PrefixQuoted(BrowserTag);
    QuoteDigits(digits);
    ColonQuoted();
    QuoteAppend(prefix, digits);
    QuoteAppend(prefix + digits, ":");
    QuoteAppend(prefix + digits + ":", password);
  }

  /** Digits end at the first colon, so a fixed prefix, a digit string, a colon and a rest split only one way. */
  lemma SplitAtColon(prefix: string, d1: string, p1: string, d2: string, p2: string)
    requires forall i :: 0 <= i < |d1| ==> '0' <= d1[i] <= '9'
    requires forall i :: 0 <= i < |d2| ==> '0' <= d2[i] <= '9'
    requires prefix + d1 + ":" + p1 == prefix + d2 + ":" + p2
    ensures d1 == d2 && p1 == p2
  {
    var f := prefix + d1 + ":" + p1;
    var s := d1 + ":" + p1;
    assert f == prefix + s && f == prefix + (d2 + ":" + p2);
    assert s == f[|prefix|..] == d2 + ":" + p2;
    assert s[|d1|] == ':' && s[|d2|] == ':';
    assert |d1| == |d2|;
    assert d1 == s[..|d1|] == d2;
    assert p1 == s[|d1| + 1..] == p2;
  }

  /** Equal fields come from the same timestamp and the same password. */
  lemma EncodingIsInjective(t1: nat, p1: string, t2: nat, p2: string)
    requires EncodePassword(t1, p1) == EncodePassword(t2, p2)
    ensures t1 == t2 && p1 == p2
  {
    assert FieldText(t1, p1) == FieldText(t2, p2);
    SplitAtColon(FieldPrefix(BrowserTag), NatToString(t1), p1, NatToString(t2), p2);
    NatToStringValue(t1);
    NatToStringValue(t2);
  }

  // ---------------------------------------------------------------------
  // Classifying a login response
  // ---------------------------------------------------------------------

  const AuthenticatedMarker := "\"authenticated\":true"
  const CheckpointMarker := "\"checkpoint_required\""
  const SpamMarker := "\"spam\":true"

  /** Which marker of a login response body is found first, in the order tested. */
  datatype Verdict = Authenticated | CheckpointRequired | Spam | NoMarker

  function Classify(body: string): (v: Verdict)
    ensures v == Authenticated <==> Contains(body, AuthenticatedMarker)
    ensures v == CheckpointRequired <==> !Contains(body, AuthenticatedMarker) && Contains(body, CheckpointMarker)
    ensures v == Spam <==> !Contains(body, AuthenticatedMarker) && !Contains(body, CheckpointMarker) && Contains(body, SpamMarker)
    ensures v == NoMarker <==> !Contains(body, AuthenticatedMarker) && !Contains(body, CheckpointMarker) && !Contains(body, SpamMarker)
  {
    if Contains(body, AuthenticatedMarker) then Authenticated
    else if Contains(body, CheckpointMarker) then CheckpointRequired
    else if Contains(body, SpamMarker) then Spam
    else NoMarker
  }

  /** A body carrying several markers is classified by the first one tested. */
  lemma AuthenticationOutranksOthers(body: string)
    requires Contains(body, AuthenticatedMarker)
    ensures Classify(body + CheckpointMarker + SpamMarker) == Authenticated
  {
    var i :| 0 <= i <= |body| && AuthenticatedMarker <= body[i..];
    var s := body + CheckpointMarker + SpamMarker;
    assert s[i..] == body[i..] + CheckpointMarker + SpamMarker;
    assert AuthenticatedMarker <= s[i..];
  }

  /** The path `try_login` takes for the answer of `send_request`. */
  datatype LoginPath = AuthenticatedPath | CheckpointPath | SpamPath | NoMatchPath | ExceptionPath

  /** The path for an awaited `send_request` outcome: a raised exception, no
      response, or a response classified by its body. */
  function PathOf(sent: RM.SendOutcome): (p: LoginPath)
    ensures p == ExceptionPath <==> sent.Raised?
    ensures sent.GaveUp? ==> p == NoMatchPath
    ensures sent.Returned? ==> match Classify(sent.response.body)
      case Authenticated => p == AuthenticatedPath
      case CheckpointRequired => p == CheckpointPath
      case Spam => p == SpamPath
      case NoMarker => p == NoMatchPath
  {
    match sent
    case Raised => ExceptionPath
    case GaveUp => NoMatchPath
    case Returned(r) =>
      match Classify(r.body)
      case Authenticated => AuthenticatedPath
      case CheckpointRequired => CheckpointPath
      case Spam => SpamPath
      case NoMarker => NoMatchPath
  }

  /** The path of `try_login` as written: `response.text` is the response's
      `text` coroutine method rather than the body, so the first `in` test
      raises `TypeError` for every response and the handler takes over. */
  function PathAsWritten(sent: RM.SendOutcome): (p: LoginPath)
    ensures sent.GaveUp? ==> p == NoMatchPath
    ensures !sent.GaveUp? ==> p == ExceptionPath
  {
    if sent.GaveUp? then NoMatchPath else ExceptionPath
  }

  /** As written, a response reporting a successful login is still treated as a failed attempt. */
  lemma AuthenticatedResponseLost(status: int)
    ensures var sent := RM.Returned(RM.Response(status, RM.Absent, AuthenticatedMarker));
      PathOf(sent) == AuthenticatedPath && PathAsWritten(sent) == ExceptionPath
  {
    assert AuthenticatedMarker <= AuthenticatedMarker[0..];
  }

  // ---------------------------------------------------------------------
  // The sequential attack loops
  // ---------------------------------------------------------------------

  /** A run of `dictionary_attack` that reports `found` after `tried` logins:
      the clock is read before each login and was within `timeout` each
      time; the loop stops at the first success, which is index `tried - 1`;
      without one it stops at the end of the list or at the reading
      `clock(tried)` that exceeds the timeout. */
  predicate DictionaryRun(passwords: seq<string>, start: int, timeout: int, clock: nat -> int, succeeds: nat -> bool,
                          found: Option<nat>, tried: nat)
  {
    && tried <= |passwords|
    && (forall j: nat :: j < tried ==> clock(j) - start <= timeout)
    && (found.Some? <==> tried >= 1 && succeeds(tried - 1))
    && (found.Some? ==> found.value == tried - 1)
    && (forall j: nat :: j + 1 < tried ==> !succeeds(j))
    && (found.None? ==> tried == |passwords| || clock(tried) - start > timeout)
  }

  /** A run of `random_attack` that reports `found` after `tried` logins: each
      login followed a reading less than `timeout` after `start`, the first
      success ends the loop, and otherwise the reading `clock(tried)` ended it. */
  predicate RandomRun(start: int, timeout: int, clock: nat -> int, succeeds: nat -> bool, found: Option<nat>, tried: nat) {
    && (forall j: nat :: j < tried ==> clock(j) - start < timeout)
    && (found.Some? <==> tried >= 1 && succeeds(tried - 1))
    && (found.Some? ==> found.value == tried - 1)
    && (forall j: nat :: j + 1 < tried ==> !succeeds(j))
    && (found.None? ==> clock(tried) - start >= timeout)
  }

  /** `dictionary_attack`: before trying the i-th password (at time `clock(i)`)
      stop if more than `timeout` has elapsed since `start`; the i-th login
      succeeds iff `succeeds(i)`, and the first success ends the loop.
      Returns the index found, if any, and the number of logins tried. */
  method DictionaryAttack(passwords: seq<string>, start: int, timeout: int, clock: nat -> int, succeeds: nat -> bool)
    returns (found: Option<nat>, tried: nat)
    ensures DictionaryRun(passwords, start, timeout, clock, succeeds, found, tried)
  {
    found := None;
    tried := 0;
    for i := 0 to |passwords|
      invariant tried == i
      invariant forall j: nat :: j < i ==> clock(j) - start <= timeout && !succeeds(j)
    {
      if clock(i) - start > timeout {
        return;
      }
      tried := tried + 1;
      if succeeds(i) {
        return Some(i), tried;
      }
    }
  }

  /** `random_attack`: keep trying generated passwords while less than
      `timeout` has elapsed at the check before each attempt. The clock
      strictly advances between checks, which bounds the loop. */
  method RandomAttack(start: int, timeout: int, clock: nat -> int, succeeds: nat -> bool)
    returns (found: Option<nat>, tried: nat)
    requires forall i: nat :: clock(i) < clock(i + 1)
    ensures RandomRun(start, timeout, clock, succeeds, found, tried)
  {
    found := None;
    tried := 0;
    while clock(tried) - start < timeout
      invariant forall j: nat :: j < tried ==> clock(j) - start < timeout && !succeeds(j)
      invariant clock(tried) >= clock(0) + tried
      decreases start + timeout - clock(tried)
    {
      assert clock(tried + 1) > clock(tried);
      tried := tried + 1;
      if succeeds(tried - 1) {
        return Some(tried - 1), tried;
      }
    }
  }

  /** As written, the loops call `try_login` without awaiting it: the
      coroutine object is truthy, so the first password within the time
      limit is reported as found whatever the server answers. */
  method DictionaryAttackAsWritten(passwords: seq<string>, start: int, timeout: int, clock: nat -> int)
    returns (found: Option<nat>, tried: nat)
    ensures passwords != [] && clock(0) - start <= timeout ==> found == Some(0) && tried == 1
    ensures passwords == [] || clock(0) - start > timeout ==> found == None && tried == 0
  {
    var truthy := (_: nat) => true;
    found, tried := DictionaryAttack(passwords, start, timeout, clock, truthy);
    assert truthy(0);
    if tried >= 1 {
      assert truthy(tried - 1);
    }
  }

  /** The random loop as written: the first login's coroutine is truthy, so
      the loop returns after its first check whenever time remains. Only the
      reading `clock(0)` is ever taken; the later readings given to
      `RandomAttack` are any advancing values. */
  method RandomAttackAsWritten(start: int, timeout: int, clock: nat -> int) returns (found: Option<nat>, tried: nat)
    ensures clock(0) - start < timeout ==> found == Some(0) && tried == 1
    ensures clock(0) - start >= timeout ==> found == None && tried == 0
  {
    var truthy := (_: nat) => true;
    var readings := (i: nat) => clock(0) + i;
    found, tried := RandomAttack(start, timeout, readings, truthy);
    assert readings(0) == clock(0) && truthy(0);
    if tried >= 1 {
      assert truthy(tried - 1);
    }
  }

  /** `f` seen from its `d`-th argument on. */
  function Shift<T>(f: nat -> T, d: nat): nat -> T {
    (i: nat) => f(d + i)
  }

  /** How many clock readings a dictionary run took: one per login, and one
      more when the timeout check ended it. */
  function Readings(passwords: seq<string>, found: Option<nat>, tried: nat): (n: nat)
    ensures n == tried || (n == tried + 1 && found.None? && tried < |passwords|)
  {
    if found.None? && tried < |passwords| then tried + 1 else tried
  }

  /** Which routine `brute_force` runs. */
  datatype Strategy = Dictionary | Random | Hybrid

  datatype Plan =
    | MultiThread(chunks: nat)
    | RunDictionary
    | RunRandom
    | RunHybrid
      /** hybrid with no list: `dictionary_attack` raises at `len(password_list)` */
    | HybridWithoutList

  /** The dispatch at the end of `brute_force` and in `attack_handler`. */
  function Route(threads: int, passwords: Option<seq<string>>, strategy: Strategy): (p: Plan)
    ensures p.MultiThread? <==> threads > 1 && passwords.Some? && passwords.value != []
    ensures p.MultiThread? ==> p.chunks == threads
    ensures p == RunDictionary <==> !p.MultiThread? && strategy == Dictionary && passwords.Some? && passwords.value != []
    ensures p == RunRandom <==> !p.MultiThread? && strategy == Random
    ensures p == RunHybrid <==> !p.MultiThread? && p != RunDictionary && strategy != Random && passwords.Some?
    ensures p == HybridWithoutList <==> strategy != Random && passwords.None?
  {
    if threads > 1 && passwords.Some? && passwords.value != [] then MultiThread(threads)
    else if strategy == Dictionary && passwords.Some? && passwords.value != [] then RunDictionary
    else if strategy == Random then RunRandom
    else if passwords.None? then HybridWithoutList
    else RunHybrid
  }

  /** `hybrid_attack`: the dictionary routine, then the random routine even
      when the dictionary found the password. Logins are numbered across
      both routines and clock readings likewise, so the random routine's
      i-th login is login `dictionaryTried + i` and its i-th check is
      reading `Readings(..) + i`; `random` is an index within the random routine. */
  method HybridAttack(passwords: seq<string>, start: int, timeout: int, clock: nat -> int, succeeds: nat -> bool)
    returns (dictionary: Option<nat>, dictionaryTried: nat, random: Option<nat>, randomTried: nat)
    requires forall i: nat :: clock(i) < clock(i + 1)
    ensures DictionaryRun(passwords, start, timeout, clock, succeeds, dictionary, dictionaryTried)
    ensures var r := Readings(passwords, dictionary, dictionaryTried);
      RandomRun(start, timeout, Shift(clock, r), Shift(succeeds, dictionaryTried), random, randomTried)
  {
    dictionary, dictionaryTried := DictionaryAttack(passwords, start, timeout, clock, succeeds);
    var r := Readings(passwords, dictionary, dictionaryTried);
    var later := Shift(clock, r);
    assert forall i: nat :: later(i) < later(i + 1) by {
      forall i: nat ensures later(i) < later(i + 1) {
        assert clock(r + i) < clock(r + i + 1);
      }
    }
    random, randomTried := RandomAttack(start, timeout, later, Shift(succeeds, dictionaryTried));
  }

  /** A hybrid run that finds the password in the dictionary still makes one
      random login when time remains, and that login is the next one after
      the success. */
  lemma HybridContinuesAfterSuccess(passwords: seq<string>, start: int, timeout: int, clock: nat -> int, succeeds: nat -> bool,
                                    dictionary: Option<nat>, dictionaryTried: nat, random: Option<nat>, randomTried: nat)
    requires DictionaryRun(passwords, start, timeout, clock, succeeds, dictionary, dictionaryTried)
    requires RandomRun(start, timeout, Shift(clock, Readings(passwords, dictionary, dictionaryTried)), Shift(succeeds, dictionaryTried),
                       random, randomTried)
    requires dictionary.Some? && clock(dictionaryTried) - start < timeout
    ensures Readings(passwords, dictionary, dictionaryTried) == dictionaryTried == dictionary.value + 1
    ensures randomTried >= 1 && succeeds(dictionary.value)
    ensures random == Some(0) <==> succeeds(dictionary.value + 1)
  {
    var later, next := Shift(clock, dictionaryTried), Shift(succeeds, dictionaryTried);
    assert later(0) == clock(dictionaryTried) && next(0) == succeeds(dictionaryTried);
  }

  /** A hybrid run whose dictionary routine stopped on the timeout makes no random login. */
  lemma HybridStopsAfterTimeout(passwords: seq<string>, start: int, timeout: int, clock: nat -> int, succeeds: nat -> bool,
                                dictionary: Option<nat>, dictionaryTried: nat, random: Option<nat>, randomTried: nat)
    requires forall i: nat :: clock(i) < clock(i + 1)
    requires DictionaryRun(passwords, start, timeout, clock, succeeds, dictionary, dictionaryTried)
    requires RandomRun(start, timeout, Shift(clock, Readings(passwords, dictionary, dictionaryTried)), Shift(succeeds, dictionaryTried),
                       random, randomTried)
    requires dictionary.None? && dictionaryTried < |passwords|
    ensures randomTried == 0 && random.None?
  {
    var later := Shift(clock, dictionaryTried + 1);
    assert later(0) == clock(dictionaryTried + 1) > clock(dictionaryTried);
  }

  // ---------------------------------------------------------------------
  // Partitioning the list among threads
  // ---------------------------------------------------------------------

  /** Where chunk `i` of `threads` chunks ends: the last takes the remainder. */
  function ChunkEnd(n: nat, threads: nat, i: nat): nat
    requires threads >= 1
  {
    if i == threads - 1 then n else (i + 1) * (n / threads)
  }

  lemma MulMono(a: nat, b: nat, c: nat)
    requires a <= b
    ensures a * c <= b * c
  {
    assert b * c == a * c + (b - a) * c;
  }

  lemma ChunkBounds(n: nat, threads: nat, i: nat)
    requires threads >= 1 && i < threads
    ensures i * (n / threads) <= ChunkEnd(n, threads, i) <= n
    ensures i < threads - 1 ==> ChunkEnd(n, threads, i) == i * (n / threads) + n / threads
  {
    var c := n / threads;
    assert threads * c <= n;
    MulMono(i + 1, threads, c);
    MulMono(i, threads, c);
    assert (i + 1) * c == i * c + c;
  }

  /** `password_list[i * chunk_size : end_index]` for `chunk_size = len // threads`. */
  function Chunk(list: seq<string>, threads: nat, i: nat): (c: seq<string>)
    requires threads >= 1 && i < threads
    ensures i < threads - 1 ==> |c| == |list| / threads
    ensures i == threads - 1 ==> |c| == |list| - (threads - 1) * (|list| / threads)
  {
    ChunkBounds(|list|, threads, i);
    list[i * (|list| / threads)..ChunkEnd(|list|, threads, i)]
  }

  function Flatten(chunks: seq<seq<string>>): seq<string> {
    if chunks == [] then [] else Flatten(chunks[..|chunks| - 1]) + chunks[|chunks| - 1]
  }

  /** The chunking loop of `multi_thread_brute_force`: `threads` chunks that
      concatenate, in order, to exactly the list. */
  method Partition(list: seq<string>, threads: nat) returns (chunks: seq<seq<string>>)
    requires threads >= 1
    ensures |chunks| == threads
    ensures forall i :: 0 <= i < threads ==> chunks[i] == Chunk(list, threads, i)
    ensures Flatten(chunks) == list
  {
    var chunkSize := |list| / threads;
    chunks := [];
    for i := 0 to threads
      invariant chunks == Chunks(list, threads, i)
    {
      var startIndex := i * chunkSize;
      var endIndex := if i == threads - 1 then |list| else (i + 1) * chunkSize;
      ChunkBounds(|list|, threads, i);
      var chunk := list[startIndex..endIndex];
      assert chunk == Chunk(list, threads, i);
      chunks := chunks + [chunk];
    }
    ChunksAreChunks(list, threads, threads);
    ChunksCover(list, threads, threads);
  }

  /** The first `i` chunks. */
  function Chunks(list: seq<string>, threads: nat, i: nat): (r: seq<seq<string>>)
    requires threads >= 1 && i <= threads
    ensures |r| == i
  {
    if i == 0 then [] else Chunks(list, threads, i - 1) + [Chunk(list, threads, i - 1)]
  }

  lemma {:induction false} ChunksAreChunks(list: seq<string>, threads: nat, i: nat)
    requires threads >= 1 && i <= threads
    ensures forall j :: 0 <= j < i ==> Chunks(list, threads, i)[j] == Chunk(list, threads, j)
  {
    if i > 0 { ChunksAreChunks(list, threads, i - 1); }
  }

  /** How much of a list of length `n` the first `i` chunks cover. */
  function Covered(n: nat, threads: nat, i: nat): nat
    requires threads >= 1
  {
    if i >= threads then n else i * (n / threads)
  }

  /** Chunk `k` runs from where the first `k` chunks end to where the first `k + 1` end. */
  lemma ChunkSlice(list: seq<string>, threads: nat, k: nat)
    requires threads >= 1 && k < threads
    ensures Covered(|list|, threads, k) <= Covered(|list|, threads, k + 1) <= |list|
    ensures Chunk(list, threads, k) == list[Covered(|list|, threads, k)..Covered(|list|, threads, k + 1)]
  {
    ChunkBounds(|list|, threads, k);
  }

  lemma {:induction false} ChunksCover(list: seq<string>, threads: nat, i: nat)
    requires threads >= 1 && i <= threads
    ensures Covered(|list|, threads, i) <= |list|
    ensures Flatten(Chunks(list, threads, i)) == list[..Covered(|list|, threads, i)]
  {
    if i == 0 {
      assert list[..0] == [];
    } else {
      ChunksCover(list, threads, i - 1);
      ChunkSlice(list, threads, i - 1);
      var prev := Chunks(list, threads, i - 1);
      var c := Chunk(list, threads, i - 1);
      assert Chunks(list, threads, i) == prev + [c];
      FlattenSnoc(prev, c);
      SliceJoin(list, Covered(|list|, threads, i - 1), Covered(|list|, threads, i));
    }
  }

  lemma FlattenSnoc(chunks: seq<seq<string>>, c: seq<string>)
    ensures Flatten(chunks + [c]) == Flatten(chunks) + c
  {
    assert (chunks + [c])[..|chunks|] == chunks;
  }

  lemma SliceJoin(list: seq<string>, a: nat, b: nat)
    requires a <= b <= |list|
    ensures list[..a] + list[a..b] == list[..b]
  {
  }

  /** Nine passwords over three threads make three chunks of three. */
  lemma NineOverThree(list: seq<string>)
    requires |list| == 9
    ensures |Chunk(list, 3, 0)| == 3 && |Chunk(list, 3, 1)| == 3 && |Chunk(list, 3, 2)| == 3
  {
  }

  /** With fewer passwords than threads every chunk but the last is empty. */
  lemma ShortListGoesToLastChunk(list: seq<string>, threads: nat, i: nat)
    requires threads >= 1 && |list| < threads && i < threads
    ensures Chunk(list, threads, i) == if i == threads - 1 then list else []
  {
  }

  // ---------------------------------------------------------------------
  // Progress and a single login attempt
  // ---------------------------------------------------------------------

  /** The progress summary in `update_progress` divides by the time since
      `start_time`, which raises while that is unset. */
  predicate ReportRaises(attempts: nat, startTime: Option<int>) {
    attempts % 100 == 0 && startTime.None?
  }

  class BruteForcer {
    var attempts: nat
    var startTime: Option<int>
    var found: bool
    const monitor: Mon.OperationMonitor

    ghost predicate Valid()
      reads this, monitor
    {
      monitor.Valid()
    }

    constructor ()
      ensures Valid() && fresh(monitor)
      ensures attempts == 0 && startTime == None && !found
      ensures monitor.requestsSent == 0
    {
      attempts := 0;
      startTime := None;
      found := false;
      monitor := new Mon.OperationMonitor();
    }

    /** The start of `brute_force` at `now`: monitoring starts and the progress clock is set. */
    method Begin(now: int)
      modifies this`startTime, monitor`active, monitor`startTime
      ensures startTime == Some(now) && monitor.active && monitor.startTime == Some(now)
    {
      monitor.StartMonitoring(now);
      startTime := Some(now);
    }

    /** `update_progress(password)`, with `[]` for no password: one more
        attempt, and `found` is set by a non-empty password and never cleared.
        `raised` when the progress summary fails. */
    method UpdateProgress(password: string) returns (raised: bool)
      modifies this`attempts, this`found
      ensures attempts == old(attempts) + 1
      ensures found == (old(found) || password != [])
      ensures raised <==> ReportRaises(attempts, startTime)
    {
      attempts := attempts + 1;
      if password != [] {
        found := true;
      }
      raised := ReportRaises(attempts, startTime);
    }

    /** `try_login` at `now` for the awaited outcome `sent` of `send_request`.
        Only the authenticated and no-match paths count an attempt; the
        checkpoint and spam paths touch neither progress nor the monitor; a
        request is logged, always as failed, on the no-match and exception
        paths and whenever the progress summary raises. `pause` is the sleep
        that follows a spam answer. */
    method TryLogin(password: string, sent: RM.SendOutcome, now: int) returns (success: bool, pause: int)
      requires Valid()
      modifies this`attempts, this`found, monitor`requestsSent, monitor`successfulRequests,
        monitor`failedRequests, monitor`lastRequestTime
      ensures Valid()
      ensures var p := PathOf(sent);
        var counted := p == AuthenticatedPath || p == NoMatchPath;
        var raised := counted && ReportRaises(old(attempts) + 1, startTime);
        var logged := p == NoMatchPath || p == ExceptionPath || raised;
        && attempts == old(attempts) + (if counted then 1 else 0)
        && found == (old(found) || (p == AuthenticatedPath && password != []))
        && (success <==> p == AuthenticatedPath && !raised)
        && monitor.requestsSent == old(monitor.requestsSent) + (if logged then 1 else 0)
        && monitor.failedRequests == old(monitor.failedRequests) + (if logged then 1 else 0)
        && monitor.successfulRequests == old(monitor.successfulRequests)
        && pause == (if p == SpamPath then 30 else 0)
    {
      pause := 0;
      var path := PathOf(sent);
      if path == ExceptionPath {
        monitor.LogRequest(false, now);
        return false, pause;
      }
      if path == AuthenticatedPath {
        var raised := UpdateProgress(password);
        if raised {
          monitor.LogRequest(false, now);
          return false, pause;
        }
        return true, pause;
      } else if path == CheckpointPath {
        return false, pause;
      } else if path == SpamPath {
        return false, 30;
      }
      var raised := UpdateProgress([]);
      monitor.LogRequest(false, now);
      success := false;
    }
  }
}
