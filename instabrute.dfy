/** The command line front end: argument validation that collects every
    problem, and the choice of attack strategy. Whether a named file exists
    is an input. */
module InstaBrute {
  import opened Options
  import BF = BruteForce

  /** The parsed arguments that validation and the strategy choice look at. */
  datatype Args = Args(
    username: string,
    passwordList: Option<string>,
    random: bool,
    proxyList: Option<string>,
    threads: int,
    passwordListExists: bool,
    proxyListExists: bool)

  /** One validation message. */
  datatype ArgError =
    | UsernameRequired
    | SourceRequired
    | PasswordListNotFound(path: string)
    | ProxyListNotFound(path: string)
    | ThreadCountTooLow

  /** An optional argument counts as given when it is a non-empty string. */
  predicate Given(s: Option<string>) {
    s.Some? && s.value != []
  }

  /** The position of each check in `validate_arguments`. */
  function Rank(e: ArgError): nat {
    match e
    case UsernameRequired => 0
    case SourceRequired => 1
    case PasswordListNotFound(_) => 2
    case ProxyListNotFound(_) => 3
    case ThreadCountTooLow => 4
  }

  function Check(failed: bool, e: ArgError): seq<ArgError> {
    if failed then [e] else []
  }

  /** The messages `validate_arguments` collects, check by check. */
  function Collected(args: Args): seq<ArgError> {
    Check(args.username == [], UsernameRequired)
    + Check(!Given(args.passwordList) && !args.random, SourceRequired)
    + (if Given(args.passwordList) && !args.passwordListExists then [PasswordListNotFound(args.passwordList.value)] else [])
    + (if Given(args.proxyList) && !args.proxyListExists then [ProxyListNotFound(args.proxyList.value)] else [])
    + Check(args.threads < 1, ThreadCountTooLow)
  }

  /** Whether a message naming which check failed is among the collected ones. */
  lemma UsernameMessage(args: Args)
    ensures UsernameRequired in Collected(args) <==> args.username == []
  {
  }

  lemma SourceMessage(args: Args)
    ensures SourceRequired in Collected(args) <==> !Given(args.passwordList) && !args.random
  {
  }

  lemma ThreadCountMessage(args: Args)
    ensures ThreadCountTooLow in Collected(args) <==> args.threads < 1
  {
  }

  lemma PasswordListMessage(args: Args)
    ensures (exists p :: PasswordListNotFound(p) in Collected(args)) <==> Given(args.passwordList) && !args.passwordListExists
    ensures forall p :: PasswordListNotFound(p) in Collected(args) ==> p == args.passwordList.value
  {
    if Given(args.passwordList) && !args.passwordListExists {
      assert PasswordListNotFound(args.passwordList.value) in Collected(args);
    }
  }

  lemma ProxyListMessage(args: Args)
    ensures (exists p :: ProxyListNotFound(p) in Collected(args)) <==> Given(args.proxyList) && !args.proxyListExists
    ensures forall p :: ProxyListNotFound(p) in Collected(args) ==> p == args.proxyList.value
  {
    if Given(args.proxyList) && !args.proxyListExists {
      assert ProxyListNotFound(args.proxyList.value) in Collected(args);
    }
  }

  /** Messages come in the order of the checks, each at most once. */
  lemma CollectedInOrder(args: Args)
    ensures var errors := Collected(args);
      forall i, j :: 0 <= i < j < |errors| ==> Rank(errors[i]) < Rank(errors[j])
  {
  }

  /** The arguments are accepted iff every check passes. */
  lemma CollectedNothing(args: Args)
    ensures Collected(args) == [] <==>
      && args.username != []
      && (Given(args.passwordList) || args.random)
      && (Given(args.passwordList) ==> args.passwordListExists)
      && (Given(args.proxyList) ==> args.proxyListExists)
      && args.threads >= 1
  {
  }

  /** `validate_arguments`: every check runs and appends its own message;
      the arguments are accepted iff nothing was collected. */
  method ValidateArguments(args: Args) returns (ok: bool, errors: seq<ArgError>)
    ensures errors == Collected(args)
    ensures ok <==> errors == []
  {
    errors := [];
    if args.username == [] {
      errors := errors + [UsernameRequired];
    }
    if !Given(args.passwordList) && !args.random {
      errors := errors + [SourceRequired];
    }
    if Given(args.passwordList) && !args.passwordListExists {
      errors := errors + [PasswordListNotFound(args.passwordList.value)];
    }
    if Given(args.proxyList) && !args.proxyListExists {
      errors := errors + [ProxyListNotFound(args.proxyList.value)];
    }
    if args.threads < 1 {
      errors := errors + [ThreadCountTooLow];
    }
    ok := errors == [];
  }

  /** Random mode alone, with no list, is accepted; so is a list that exists without random mode. */
  method EitherSourceSuffices(username: string, path: string) returns (okRandom: bool, okList: bool)
    requires username != [] && path != []
    ensures okRandom && okList
  {
    var errors;
    okRandom, errors := ValidateArguments(Args(username, None, true, None, 1, false, false));
    CollectedNothing(Args(username, None, true, None, 1, false, false));
    okList, errors := ValidateArguments(Args(username, Some(path), false, None, 1, true, false));
    CollectedNothing(Args(username, Some(path), false, None, 1, true, false));
  }

  /** The strategy `main` passes on: random iff `--random`. */
  function ChooseStrategy(random: bool): (s: BF.Strategy)
    ensures s == BF.Random <==> random
    ensures s != BF.Hybrid
  {
    if random then BF.Random else BF.Dictionary
  }

  /** The password list `main` hands over as written: the `--password-list`
      path itself, whose iteration yields its characters one by one. */
  function PasswordsAsWritten(passwordList: Option<string>): (r: Option<seq<string>>)
    ensures passwordList.None? ==> r.None?
    ensures passwordList.Some? ==> r.Some? && |r.value| == |passwordList.value|
    ensures passwordList.Some? ==> forall i :: 0 <= i < |r.value| ==> r.value[i] == [passwordList.value[i]]
  {
    match passwordList
    case None => None
    case Some(path) => Some(Characters(path))
  }

  function Characters(s: string): (r: seq<string>)
    ensures |r| == |s| && forall i :: 0 <= i < |s| ==> r[i] == [s[i]]
  {
    if s == [] then [] else [[s[0]]] + Characters(s[1..])
  }

  /** As written, a list file named `pw.txt` becomes six one-character passwords. */
  lemma PathIsNotAList()
    ensures PasswordsAsWritten(Some("pw.txt")) == Some(["p", "w", ".", "t", "x", "t"])
  {
    var r := Characters("pw.txt");
    assert r[0] == "p" && r[1] == "w" && r[2] == "." && r[3] == "t" && r[4] == "x" && r[5] == "t";
    assert r == ["p", "w", ".", "t", "x", "t"];
  }

  /** The password list `main` evidently means: the lines of the named file, when one is given. */
  function Passwords(args: Args, fileLines: seq<string>): (r: Option<seq<string>>)
    ensures r.Some? <==> Given(args.passwordList)
    ensures r.Some? ==> r.value == fileLines
  {
    if Given(args.passwordList) then Some(fileLines) else None
  }

  /** What `main` runs for validated arguments, given the lines of the password file. */
  function MainPlan(args: Args, fileLines: seq<string>): (p: BF.Plan)
    ensures p.MultiThread? <==> args.threads > 1 && Given(args.passwordList) && fileLines != []
    ensures p.MultiThread? ==> p.chunks == args.threads
    ensures p == BF.RunRandom <==> args.random && !p.MultiThread?
    ensures p == BF.HybridWithoutList <==> !args.random && !Given(args.passwordList)
    ensures p == BF.RunHybrid <==> !args.random && Given(args.passwordList) && fileLines == []
  {
    BF.Route(args.threads, Passwords(args, fileLines), ChooseStrategy(args.random))
  }

  /** Once validation accepts the arguments, `main` never runs the hybrid
      routine without a list: it runs the random loop iff `--random` and no
      multi-thread split applies, otherwise a dictionary, multi-thread or
      (for an empty file) hybrid run over the file's lines. */
  lemma AcceptedArgumentsHaveAList(args: Args, fileLines: seq<string>)
    requires !(!Given(args.passwordList) && !args.random)
    ensures MainPlan(args, fileLines) != BF.HybridWithoutList
    ensures MainPlan(args, fileLines) == BF.RunRandom <==>
      args.random && !(args.threads > 1 && Given(args.passwordList) && fileLines != [])
    ensures !args.random && fileLines != [] && args.threads <= 1 ==> MainPlan(args, fileLines) == BF.RunDictionary
  {
  }
}
