/**
 * The check hierarchy of internal/pkg/checks/check.go: a tree of named
 * checks, `AddCheck`, the pre-order `List`, and the recursive `Verify` with
 * its name filter, API-version gate, lazy compilation of a declarative
 * `Request` and pruning below a failed check.
 *
 * Go's pointers become an immutable tree whose nodes carry an `id` standing
 * for pointer identity. A hand-written `Run` function is an oracle of the
 * environment, indexed by that id; the Kubernetes host lookup and the HTTP
 * transport are oracles too.
 */
module Checks {
  import opened Wrappers
  import opened Text
  import opened Format
  import opened Assert
  import opened Capture

  /** Suite configuration: the Ingress API version under test and the host overrides. */
  datatype Config = Config(ingressAPIVersion: string, useInsecureHost: string, useSecureHost: string)

  /** What `DoCheck` returns: the assertions (possibly nil) and an error. */
  datatype DoCheckResult = DoCheckResult(assertions: Option<Assertions>, err: Option<string>)

  /** A declarative single-request check. */
  datatype Request = Request(
    ingressNamespace: string,
    ingressName: string,
    path: string,
    hostname: string,
    insecure: bool,
    doCheck: (CapturedRequest, CapturedResponse) -> DoCheckResult)

  /** The outcome of one `Run`: success flag and an optional error. */
  datatype RunResult = RunResult(success: bool, err: Option<string>)

  /**
   * A check. `hasRun` says whether a hand-written `Run` is set (its behaviour
   * is `Env.runs`); `runRequest` is the declarative alternative.
   */
  datatype Check = Check(
    id: nat,
    name: string,
    description: string,
    apiVersions: seq<string>,
    hasRun: bool,
    runRequest: Option<Request>,
    children: seq<Check>,
    parent: Option<nat>)

  /** The world a verification runs in. */
  datatype Env = Env(
    runs: (nat, Config) -> RunResult,
    lookup: (string, string) -> Result<string>,
    transport: Transport)

  /** A check with nothing attached, as a struct literal with only a name leaves it. */
  function Node(id: nat, name: string, description: string, apiVersions: seq<string>, children: seq<Check>): Check
  {
    Check(id, name, description, apiVersions, false, None, children, None)
  }

  // ---------------------------------------------------------------------------
  // Tree measures and the pre-order reference walk

  function Size(c: Check): nat
    decreases c
  {
    1 + SizeAll(c.children)
  }

  function SizeAll(cs: seq<Check>): nat
    decreases cs
  {
    if |cs| == 0 then 0 else Size(cs[0]) + SizeAll(cs[1..])
  }

  /** Every node of the tree, parents before children, children in order. */
  function PreOrder(c: Check): (r: seq<Check>)
    decreases c
    ensures |r| == Size(c)
    ensures |r| > 0 && r[0] == c
  {
    [c] + PreOrderAll(c.children)
  }

  function PreOrderAll(cs: seq<Check>): (r: seq<Check>)
    decreases cs
    ensures |r| == SizeAll(cs)
  {
    if |cs| == 0 then [] else PreOrder(cs[0]) + PreOrderAll(cs[1..])
  }

  /** The names occurring anywhere in the tree. */
  function Names(c: Check): set<string>
    decreases c
  {
    {c.name} + NamesAll(c.children)
  }

  function NamesAll(cs: seq<Check>): set<string>
    decreases cs
  {
    if |cs| == 0 then {} else Names(cs[0]) + NamesAll(cs[1..])
  }

  // ---------------------------------------------------------------------------
  // AddCheck

  const SelfChildPanic: string := "Checks can't be a child of itself"

  /**
   * `c.AddCheck(checks...)`: appends each check in argument order with `c`
   * as its parent; a check that is `c` itself panics (`Err`). Only the
   * direct identity is compared, never the check's descendants.
   */
  function AddCheck(c: Check, cs: seq<Check>): (r: Result<Check>)
    decreases |cs|
    ensures r.Err? <==> exists i :: 0 <= i < |cs| && cs[i].id == c.id
    ensures r.Err? ==> r.error == SelfChildPanic
    ensures r.Ok? ==>
      |r.value.children| == |c.children| + |cs| &&
      r.value.children[..|c.children|] == c.children &&
      (forall i :: 0 <= i < |cs| ==> r.value.children[|c.children| + i] == cs[i].(parent := Some(c.id))) &&
      r.value.(children := c.children) == c
  {
    if |cs| == 0 then Ok(c)
    else if cs[0].id == c.id then Err(SelfChildPanic)
    else
      var next := c.(children := c.children + [cs[0].(parent := Some(c.id))]);
      var r := AddCheck(next, cs[1..]);
      assert forall i :: 1 <= i < |cs| ==> cs[1..][i - 1] == cs[i];
      r
  }

  /** A check that is only a grandchild of itself is accepted. */
  lemma AddCheckIgnoresIndirectCycles(p: Check, q: Check)
    requires q.id != p.id
    requires p in q.children
    ensures AddCheck(p, [q]).Ok?
  {
  }

  // ---------------------------------------------------------------------------
  // List

  /** The two printed lines of one described check: "- name [versions]" and the description. */
  function ListEntry(c: Check): string
  {
    "- " + c.name + " " + ListOperand('v', c.apiVersions) + "\n\t" + c.description + "\n"
  }

  /** `List`: each described check's entry, this check first, then each child's list. */
  function List(c: Check): seq<string>
    decreases c
  {
    (if c.description != "" then [ListEntry(c)] else []) + ListAll(c.children)
  }

  function ListAll(cs: seq<Check>): seq<string>
    decreases cs
  {
    if |cs| == 0 then [] else List(cs[0]) + ListAll(cs[1..])
  }

  /** The entries of the described checks of a sequence, in order. */
  function Described(xs: seq<Check>): (r: seq<string>)
    ensures |r| <= |xs|
  {
    if |xs| == 0 then []
    else (if xs[0].description != "" then [ListEntry(xs[0])] else []) + Described(xs[1..])
  }

  lemma {:induction false} DescribedAppend(xs: seq<Check>, ys: seq<Check>)
    ensures Described(xs + ys) == Described(xs) + Described(ys)
    decreases |xs|
  {
    if |xs| == 0 {
      assert xs + ys == ys;
    } else {
      assert (xs + ys)[1..] == xs[1..] + ys;
      DescribedAppend(xs[1..], ys);
    }
  }

  /** `List` prints exactly the described checks, in pre-order. */
  lemma {:induction false} ListIsDescribedPreOrder(c: Check)
    ensures List(c) == Described(PreOrder(c))
    decreases c
  {
    ListAllIsDescribedPreOrder(c.children);
    DescribedAppend([c], PreOrderAll(c.children));
  }

  lemma {:induction false} ListAllIsDescribedPreOrder(cs: seq<Check>)
    ensures ListAll(cs) == Described(PreOrderAll(cs))
    decreases cs
  {
    if |cs| > 0 {
      ListIsDescribedPreOrder(cs[0]);
      ListAllIsDescribedPreOrder(cs[1..]);
      DescribedAppend(PreOrder(cs[0]), PreOrderAll(cs[1..]));
    }
  }

  // ---------------------------------------------------------------------------
  // Compiling a Request into a run

  function Scheme(req: Request): string
  {
    if req.insecure then "http" else "https"
  }

  /** The configured host for the request's scheme; "" means "look it up". */
  function ConfiguredHost(req: Request, config: Config): string
  {
    if req.insecure then config.useInsecureHost else config.useSecureHost
  }

  /** The namespace the Ingress is looked up in. */
  function LookupNamespace(req: Request): (ns: string)
    ensures ns != ""
    ensures req.ingressNamespace != "" ==> ns == req.ingressNamespace
    ensures req.ingressNamespace == "" ==> ns == "default"
  {
    if req.ingressNamespace != "" then req.ingressNamespace else "default"
  }

  /** The host a compiled run targets: the configured one, or the Ingress's published address. */
  function ResolveHost(req: Request, config: Config, lookup: (string, string) -> Result<string>): (r: Result<string>)
    ensures ConfiguredHost(req, config) != "" ==> r == Ok(ConfiguredHost(req, config))
    ensures ConfiguredHost(req, config) == "" ==> r == lookup(LookupNamespace(req), req.ingressName)
  {
    var configured := ConfiguredHost(req, config);
    if configured != "" then Ok(configured) else lookup(LookupNamespace(req), req.ingressName)
  }

  /** `fmt.Sprintf("%s://%s%s", scheme, host, path)`. */
  function Location(scheme: string, host: string, path: string): string
  {
    Sprintf("%s://%s%s", [Str(scheme), Str(host), Str(path)])
  }

  /** The location is the three parts with "://" between scheme and host and nothing between host and path. */
  lemma LocationParts(scheme: string, host: string, path: string)
    ensures Location(scheme, host, path) == scheme + "://" + host + path
  {
    var t := "%s://%s%s";
    assert t == "%s" + "://%s%s";
    SprintfVerbFirst("://%s%s", Str(scheme), [Str(host), Str(path)]);
    assert "://%s%s" == "://" + "%s%s";
    SprintfPlainPrefix("://", "%s%s", [Str(host), Str(path)]);
    assert "%s%s" == "%s" + "%s";
    SprintfVerbFirst("%s", Str(host), [Str(path)]);
    assert "%s" == "%s" + "";
    SprintfVerbFirst("", Str(path), []);
  }

  /** The run `Verify` compiles from a `Request`. */
  function RunRequest(req: Request, config: Config, env: Env): (r: RunResult)
    ensures r.success ==> r.err.None?
    ensures ResolveHost(req, config, env.lookup).Err? ==>
      r == RunResult(false, Some(ResolveHost(req, config, env.lookup).error))
    ensures ResolveHost(req, config, env.lookup).Ok? ==>
      var c := CaptureRoundTrip(env.transport, Location(Scheme(req), ResolveHost(req, config, env.lookup).value, req.path), req.hostname);
      c.Err? ==> r == RunResult(false, Some(c.error))
  {
    match ResolveHost(req, config, env.lookup)
    case Err(e) => RunResult(false, Some(e))
    case Ok(host) =>
      match CaptureRoundTrip(env.transport, Location(Scheme(req), host, req.path), req.hostname)
      case Err(e) => RunResult(false, Some(e))
      case Ok(rt) =>
        var d := req.doCheck(rt.request, rt.response);
        RunResult(d.assertions.Some? && Passed(d.assertions.value), None)
  }

  /**
   * A compiled run succeeds exactly when the host resolves, the round trip is
   * captured and `DoCheck` hands back assertions with no error-tier failure.
   */
  lemma RunRequestSucceeds(req: Request, config: Config, env: Env)
    ensures RunRequest(req, config, env).success <==>
      ResolveHost(req, config, env.lookup).Ok? &&
      var loc := Scheme(req) + "://" + ResolveHost(req, config, env.lookup).value + req.path;
      var rt := CaptureRoundTrip(env.transport, loc, req.hostname);
      rt.Ok? &&
      req.doCheck(rt.value.request, rt.value.response).assertions.Some? &&
      req.doCheck(rt.value.request, rt.value.response).assertions.value.E == []
  {
    var h := ResolveHost(req, config, env.lookup);
    if h.Ok? {
      LocationParts(Scheme(req), h.value, req.path);
    }
  }

  /** The error `DoCheck` returns never influences the run. */
  lemma DoCheckErrorIgnored(req: Request, config: Config, env: Env,
                            f: (CapturedRequest, CapturedResponse) -> DoCheckResult)
    requires forall q, s :: f(q, s).assertions == req.doCheck(q, s).assertions
    ensures RunRequest(req.(doCheck := f), config, env) == RunRequest(req, config, env)
  {
  }

  /** With the host configured for the request's scheme, the Kubernetes lookup is never consulted. */
  lemma ConfiguredHostSkipsLookup(req: Request, config: Config, env: Env,
                                  lookup: (string, string) -> Result<string>)
    requires ConfiguredHost(req, config) != ""
    ensures RunRequest(req, config, env.(lookup := lookup)) == RunRequest(req, config, env)
  {
  }

  // ---------------------------------------------------------------------------
  // Verify

  /** The loop of `isAPIVersionCompatible`: some declared version equals the configured one. */
  function IsAPIVersionCompatible(versions: seq<string>, version: string): (r: bool)
    ensures r <==> version in versions
    ensures versions == [] ==> !r
  {
    if |versions| == 0 then false
    else versions[0] == version || IsAPIVersionCompatible(versions[1..], version)
  }

  /** A run is attached: a `Run`, or a `RunRequest` that `Verify` compiles into one. */
  predicate Runnable(c: Check)
  {
    c.hasRun || c.runRequest.Some?
  }

  /** The check's own run executes under `config`. */
  predicate Gated(c: Check, config: Config)
  {
    Runnable(c) && IsAPIVersionCompatible(c.apiVersions, config.ingressAPIVersion)
  }

  /** Running an attached run; a hand-written `Run` takes precedence over the `RunRequest`. */
  function Execute(c: Check, config: Config, env: Env): RunResult
    requires Runnable(c)
  {
    if c.hasRun then env.runs(c.id, config) else RunRequest(c.runRequest.value, config, env)
  }

  /** Success and failure counts, and the ids whose run executed, in execution order. */
  datatype Counts = Counts(success: nat, failure: nat, ran: seq<nat>)

  function Plus(a: Counts, b: Counts): Counts
  {
    Counts(a.success + b.success, a.failure + b.failure, a.ran + b.ran)
  }

  /** The node is reached with a filter that lets it run. */
  predicate Selects(filter: string, c: Check)
  {
    filter == c.name || filter == ""
  }

  /**
   * `c.Verify(filter, config)`. Its error result is always nil and is not
   * modelled; `ran` records which checks executed.
   */
  function Verify(c: Check, filter: string, config: Config, env: Env): (r: Counts)
    decreases c
    ensures r.success + r.failure == |r.ran|
  {
    if !Selects(filter, c) then VerifyAll(c.children, filter, config, env)
    else if Gated(c, config) then
      if Execute(c, config, env).success
      then Plus(Counts(1, 0, [c.id]), VerifyAll(c.children, "", config, env))
      else Counts(0, 1, [c.id])
    else VerifyAll(c.children, "", config, env)
  }

  /** The children loop: counts are summed in order. */
  function VerifyAll(cs: seq<Check>, filter: string, config: Config, env: Env): (r: Counts)
    decreases cs
    ensures r.success + r.failure == |r.ran|
  {
    if |cs| == 0 then Counts(0, 0, [])
    else Plus(Verify(cs[0], filter, config, env), VerifyAll(cs[1..], filter, config, env))
  }

  /** No check runs more than once: at most one count per node. */
  lemma {:induction false} VerifyBound(c: Check, filter: string, config: Config, env: Env)
    ensures Verify(c, filter, config, env).success + Verify(c, filter, config, env).failure <= Size(c)
    decreases c
  {
    VerifyAllBound(c.children, filter, config, env);
    VerifyAllBound(c.children, "", config, env);
  }

  lemma {:induction false} VerifyAllBound(cs: seq<Check>, filter: string, config: Config, env: Env)
    ensures VerifyAll(cs, filter, config, env).success + VerifyAll(cs, filter, config, env).failure <= SizeAll(cs)
    decreases cs
  {
    if |cs| > 0 {
      VerifyBound(cs[0], filter, config, env);
      VerifyAllBound(cs[1..], filter, config, env);
    }
  }

  /** Filtering by a check's own name verifies it exactly as the empty filter does. */
  lemma OwnNameIsEmptyFilter(c: Check, config: Config, env: Env)
    ensures Verify(c, c.name, config, env) == Verify(c, "", config, env)
  {
  }

  /** A filter that names no check in the tree runs nothing. */
  lemma {:induction false} UnmatchedFilterRunsNothing(c: Check, filter: string, config: Config, env: Env)
    requires filter != "" && filter !in Names(c)
    ensures Verify(c, filter, config, env) == Counts(0, 0, [])
    decreases c
  {
    UnmatchedFilterRunsNothingAll(c.children, filter, config, env);
  }

  lemma {:induction false} UnmatchedFilterRunsNothingAll(cs: seq<Check>, filter: string, config: Config, env: Env)
    requires filter != "" && filter !in NamesAll(cs)
    ensures VerifyAll(cs, filter, config, env) == Counts(0, 0, [])
    decreases cs
  {
    if |cs| > 0 {
      assert NamesAll(cs) == Names(cs[0]) + NamesAll(cs[1..]);
      UnmatchedFilterRunsNothing(cs[0], filter, config, env);
      UnmatchedFilterRunsNothingAll(cs[1..], filter, config, env);
      assert VerifyAll(cs, filter, config, env) ==
        Plus(Verify(cs[0], filter, config, env), VerifyAll(cs[1..], filter, config, env));
      var none: seq<nat> := [];
      assert none + none == none;
    }
  }

  /** The topmost checks named `filter`: a match hides its own descendants. */
  function Matching(c: Check, filter: string): seq<Check>
    decreases c
  {
    if c.name == filter then [c] else MatchingAll(c.children, filter)
  }

  function MatchingAll(cs: seq<Check>, filter: string): seq<Check>
    decreases cs
  {
    if |cs| == 0 then [] else Matching(cs[0], filter) + MatchingAll(cs[1..], filter)
  }

  /** Each given check verified with the empty filter, counts summed in order. */
  function SumUnfiltered(ms: seq<Check>, config: Config, env: Env): Counts
  {
    if |ms| == 0 then Counts(0, 0, []) else Plus(Verify(ms[0], "", config, env), SumUnfiltered(ms[1..], config, env))
  }

  lemma {:induction false} SumUnfilteredAppend(xs: seq<Check>, ys: seq<Check>, config: Config, env: Env)
    ensures SumUnfiltered(xs + ys, config, env) ==
      Plus(SumUnfiltered(xs, config, env), SumUnfiltered(ys, config, env))
    decreases |xs|
  {
    if |xs| == 0 {
      assert xs + ys == ys;
    } else {
      assert (xs + ys)[1..] == xs[1..] + ys;
      SumUnfilteredAppend(xs[1..], ys, config, env);
    }
  }

  /**
   * A non-empty filter runs nothing at non-matching checks: the result is
   * the topmost matching checks, each verified with the empty filter, summed
   * in pre-order.
   */
  lemma {:induction false} FilterVerifiesTopmostMatches(c: Check, filter: string, config: Config, env: Env)
    requires filter != ""
    ensures Verify(c, filter, config, env) == SumUnfiltered(Matching(c, filter), config, env)
    decreases c
  {
    if c.name == filter {
      OwnNameIsEmptyFilter(c, config, env);
    } else {
      FilterVerifiesTopmostMatchesAll(c.children, filter, config, env);
    }
  }

  lemma {:induction false} FilterVerifiesTopmostMatchesAll(cs: seq<Check>, filter: string, config: Config, env: Env)
    requires filter != ""
    ensures VerifyAll(cs, filter, config, env) == SumUnfiltered(MatchingAll(cs, filter), config, env)
    decreases cs
  {
    if |cs| > 0 {
      FilterVerifiesTopmostMatches(cs[0], filter, config, env);
      FilterVerifiesTopmostMatchesAll(cs[1..], filter, config, env);
      SumUnfilteredAppend(Matching(cs[0], filter), MatchingAll(cs[1..], filter), config, env);
    }
  }

  /** A selected check whose run fails counts one failure and prunes every descendant. */
  lemma FailurePrunes(c: Check, filter: string, config: Config, env: Env)
    requires Selects(filter, c) && Gated(c, config) && !Execute(c, config, env).success
    ensures Verify(c, filter, config, env) == Counts(0, 1, [c.id])
  {
  }

  /**
   * A check declaring no API versions never executes its run, whatever it
   * is, yet its children are still verified with the empty filter.
   */
  lemma UnversionedRunsOnlyChildren(c: Check, filter: string, config: Config, env: Env)
    requires c.apiVersions == [] && Selects(filter, c)
    ensures Verify(c, filter, config, env) == VerifyAll(c.children, "", config, env)
    ensures c.id !in VerifyAll(c.children, "", config, env).ran ==>
      c.id !in Verify(c, filter, config, env).ran
  {
  }

  /** No check in the tree lists `version`. */
  predicate NoneCompatible(c: Check, version: string)
    decreases c
  {
    version !in c.apiVersions && forall i :: 0 <= i < |c.children| ==> NoneCompatible(c.children[i], version)
  }

  predicate NoneCompatibleAll(cs: seq<Check>, version: string)
  {
    forall i :: 0 <= i < |cs| ==> NoneCompatible(cs[i], version)
  }

  /** Adopting children changes no check's API versions. */
  lemma AddCheckKeepsIncompatible(c: Check, cs: seq<Check>, version: string)
    requires NoneCompatible(c, version) && NoneCompatibleAll(cs, version)
    requires AddCheck(c, cs).Ok?
    ensures NoneCompatible(AddCheck(c, cs).value, version)
  {
    var r := AddCheck(c, cs).value;
    assert r.apiVersions == c.apiVersions by {
      assert r.(children := c.children) == c;
    }
    forall i | 0 <= i < |r.children|
      ensures NoneCompatible(r.children[i], version)
    {
      if i < |c.children| {
        assert r.children[i] == r.children[..|c.children|][i];
      } else {
        var j := i - |c.children|;
        assert r.children[i] == cs[j].(parent := Some(c.id));
        assert NoneCompatible(cs[j], version);
      }
    }
  }

  /** When no check of the tree declares the configured version, nothing runs under any filter. */
  lemma {:induction false} IncompatibleTreeRunsNothing(c: Check, filter: string, config: Config, env: Env)
    requires NoneCompatible(c, config.ingressAPIVersion)
    ensures Verify(c, filter, config, env) == Counts(0, 0, [])
    decreases c
  {
    IncompatibleTreeRunsNothingAll(c.children, filter, config, env);
    IncompatibleTreeRunsNothingAll(c.children, "", config, env);
  }

  lemma {:induction false} IncompatibleTreeRunsNothingAll(cs: seq<Check>, filter: string, config: Config, env: Env)
    requires NoneCompatibleAll(cs, config.ingressAPIVersion)
    ensures VerifyAll(cs, filter, config, env) == Counts(0, 0, [])
    decreases cs
  {
    if |cs| > 0 {
      assert NoneCompatible(cs[0], config.ingressAPIVersion);
      assert NoneCompatibleAll(cs[1..], config.ingressAPIVersion) by {
        forall i | 0 <= i < |cs[1..]|
          ensures NoneCompatible(cs[1..][i], config.ingressAPIVersion)
        {
          assert cs[1..][i] == cs[i + 1];
        }
      }
      IncompatibleTreeRunsNothing(cs[0], filter, config, env);
      IncompatibleTreeRunsNothingAll(cs[1..], filter, config, env);
    }
  }

  /** The ids of the gated checks of a sequence, in order. */
  function GatedIds(xs: seq<Check>, config: Config): (r: seq<nat>)
    ensures |r| <= |xs|
  {
    if |xs| == 0 then []
    else (if Gated(xs[0], config) then [xs[0].id] else []) + GatedIds(xs[1..], config)
  }

  lemma {:induction false} GatedIdsAppend(xs: seq<Check>, ys: seq<Check>, config: Config)
    ensures GatedIds(xs + ys, config) == GatedIds(xs, config) + GatedIds(ys, config)
    decreases |xs|
  {
    if |xs| == 0 {
      assert xs + ys == ys;
    } else {
      assert (xs + ys)[1..] == xs[1..] + ys;
      GatedIdsAppend(xs[1..], ys, config);
    }
  }

  /** Every gated check of the sequence succeeds when run. */
  predicate AllPass(xs: seq<Check>, config: Config, env: Env)
  {
    forall i :: 0 <= i < |xs| && Gated(xs[i], config) ==> Execute(xs[i], config, env).success
  }

  /**
   * When every gated check passes, the empty filter runs exactly the gated
   * checks, in pre-order, all counted as successes.
   */
  lemma {:induction false} AllPassRunsGatedPreOrder(c: Check, config: Config, env: Env)
    requires AllPass(PreOrder(c), config, env)
    ensures var g := GatedIds(PreOrder(c), config);
      Verify(c, "", config, env) == Counts(|g|, 0, g)
    decreases c
  {
    var rest := PreOrderAll(c.children);
    assert PreOrder(c) == [c] + rest;
    assert AllPass(rest, config, env) by {
      forall i | 0 <= i < |rest| && Gated(rest[i], config)
        ensures Execute(rest[i], config, env).success
      {
        assert rest[i] == PreOrder(c)[i + 1];
      }
    }
    assert Gated(c, config) ==> Execute(c, config, env).success by {
      assert PreOrder(c)[0] == c;
    }
    AllPassRunsGatedPreOrderAll(c.children, config, env);
    GatedIdsAppend([c], rest, config);
  }

  lemma {:induction false} AllPassRunsGatedPreOrderAll(cs: seq<Check>, config: Config, env: Env)
    requires AllPass(PreOrderAll(cs), config, env)
    ensures var g := GatedIds(PreOrderAll(cs), config);
      VerifyAll(cs, "", config, env) == Counts(|g|, 0, g)
    decreases cs
  {
    if |cs| > 0 {
      var xs, ys := PreOrder(cs[0]), PreOrderAll(cs[1..]);
      assert PreOrderAll(cs) == xs + ys;
      assert AllPass(xs, config, env) by {
        forall i | 0 <= i < |xs| && Gated(xs[i], config)
          ensures Execute(xs[i], config, env).success
        {
          assert xs[i] == (xs + ys)[i];
        }
      }
      assert AllPass(ys, config, env) by {
        forall i | 0 <= i < |ys| && Gated(ys[i], config)
          ensures Execute(ys[i], config, env).success
        {
          assert ys[i] == (xs + ys)[|xs| + i];
        }
      }
      AllPassRunsGatedPreOrder(cs[0], config, env);
      AllPassRunsGatedPreOrderAll(cs[1..], config, env);
      GatedIdsAppend(xs, ys, config);
    }
  }
}
