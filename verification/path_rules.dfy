/**
 * The path-rules checks of internal/pkg/suite/pathRulesCheck.go: a parent
 * that settles the host, two placeholders ("exact" and "prefix"), and eleven
 * prefix-path leaves with their expected backends. The expected table is
 * compared with a reference router for Kubernetes Ingress paths of type
 * `Prefix`, over the rules the leaf descriptions name.
 */
module PathRules {
  import opened Wrappers
  import opened Text
  import opened Capture
  import opened RoutingChecks
  import Checks

  const IngressName: string := "path-rules"
  const Catchall: string := "path-rules-catchall"
  const Foo: string := "path-rules-foo"
  const AaaBbb: string := "path-rules-aaa-bbb"

  /** The request path with repeated and trailing slashes that the source sends verbatim. */
  function ConsecutiveSlashesPath(): string
  {
    "/routes/with/consecutive/" + "/slashes/" + "//are-ignored"
  }

  function NormalizedPath(): string
  {
    "/routes/with/" + "consecutive/slashes/are-ignored"
  }

  function InvalidCharactersPath(): string
  {
    "/routes with" + " invalid characters are ignored!"
  }

  /** The same path as the echo server receives it, percent-encoded. */
  function EncodedInvalidCharactersPath(): string
  {
    "/routes%20with" + "%20invalid%20characters" + "%20are%20ignored%21"
  }

  /** The leaves' descriptions, in registration order. */
  function Description(k: nat): string
  {
    match k
    case 0 => "Ingress with prefix path rule '/' should match all paths"
    case 1 => "Ingress with prefix path rule without a trailing slash should send traffic to the correct backend service, and preserve the original request path (/foo matches /foo)"
    case 2 => "Ingress with prefix path rule without a trailing slash should send traffic to the correct backend service, and preserve the original request path (/foo matches /foo/)"
    case 3 => "Ingress with prefix path rule without a trailing slash should not match partial paths (/foo does not match /fo)"
    case 4 => "Ingress with prefix path rule with a trailing slash should send traffic to the correct backend service, and preserve the original request path (/aaa/bbb/ matches /aaa/bbb)"
    case 5 => "Ingress with prefix path rule with a trailing slash should send traffic to the correct backend service, and preserve the original request path (/aaa/bbb/ matches /aaa/bbb/)"
    case 6 => "Ingress with prefix path rule with a trailing slash should match subpath, send traffic to the correct backend service, and preserve the original request path (/aaa/bbb/ matches /aaa/bbb/ccc)"
    case 7 => "Ingress with prefix path rule with a trailing slash should not match string prefix (/aaa/bbb/ does not match /aaa/bbbccc)"
    case 8 => "Ingress with prefix path rule with consecutive slashes are ignored"
    case 9 => "Ingress with prefix path rule with consecutive slashes are ignored with normalized request"
    case _ => "Ingress with prefix path rule with invalid characters are ignored"
  }

  function LeafName(k: nat): string
  {
    match k
    case 0 => "path-rules-prefix-all-paths"
    case 1 => "path-rules-prefix-foo"
    case 2 => "path-rules-prefix-foo-slash"
    case 3 => "path-rules-prefix-fo"
    case 4 => "path-rules-prefix-aaa-bbb"
    case 5 => "path-rules-prefix-aaa-bbb-slash"
    case 6 => "path-rules-prefix-aaa-bbb-ccc"
    case 7 => "path-rules-prefix-aaa-bbbccc"
    case 8 => "path-rules-prefix-consecutive-slashes"
    case 9 => "path-rules-prefix-consecutive-slashes-normalized"
    case _ => "path-rules-prefix-invalid-characters"
  }

  /** The path each leaf appends to `http://<host>`. */
  function LeafPath(k: nat): string
  {
    match k
    case 0 => ""
    case 1 => "/foo"
    case 2 => "/foo/"
    case 3 => "/fo"
    case 4 => "/aaa/bbb"
    case 5 => "/aaa/bbb/"
    case 6 => "/aaa/bbb/ccc"
    case 7 => "/aaa/bbbccc"
    case 8 => ConsecutiveSlashesPath()
    case 9 => NormalizedPath()
    case _ => InvalidCharactersPath()
  }

  /** The backend each leaf expects to reach. */
  function LeafService(k: nat): string
  {
    if k == 1 || k == 2 then Foo
    else if 4 <= k <= 6 then AaaBbb
    else Catchall
  }

  /** The path each leaf expects the echo server to report. */
  function LeafEchoedPath(k: nat): string
  {
    if k == 0 then "/"
    else if k == 10 then EncodedInvalidCharactersPath()
    else LeafPath(k)
  }

  /** The k-th leaf. */
  function LeafAt(k: nat): Leaf
  {
    Leaf(10 + k, LeafName(k), Description(k), LeafPath(k), IngressName, LeafService(k), EchoedPath, LeafEchoedPath(k))
  }

  /** The eleven prefix leaves, in registration order. */
  function Leaves(): (ls: seq<Leaf>)
    ensures |ls| == 11
    ensures forall k :: 0 <= k < 11 ==> ls[k] == LeafAt(k)
  {
    seq(11, k requires 0 <= k < 11 => LeafAt(k))
  }

  // ---------------------------------------------------------------------------
  // The subtree

  /** The parent: it has a `Run` (`ParentRun` with "path-rules") and no description. */
  function Parent(): Checks.Check
  {
    Checks.Check(7, "path-rules", "", [], true, None, [], None)
  }

  /** The two placeholders: neither a run nor a description. */
  function ExactPlaceholder(): Checks.Check { Checks.Node(8, "path-rules-exact", "", [], []) }
  function PrefixPlaceholder(): Checks.Check { Checks.Node(9, "path-rules-prefix", "", [], []) }

  function LeafChecks(): (cs: seq<Checks.Check>)
    ensures |cs| == 11
    ensures forall i :: 0 <= i < 11 ==> cs[i] == LeafCheck(Leaves()[i])
  {
    seq(11, i requires 0 <= i < 11 => LeafCheck(Leaves()[i]))
  }

  /**
   * The `init` registrations: the exact placeholder under the parent, the
   * leaves under the prefix placeholder, then the prefix placeholder under
   * the parent.
   */
  function Assemble(parent: Checks.Check, exact: Checks.Check, prefix: Checks.Check, leaves: seq<Checks.Check>): Result<Checks.Check>
  {
    match Checks.AddCheck(prefix, leaves)
    case Err(e) => Err(e)
    case Ok(p) =>
      match Checks.AddCheck(parent, [exact])
      case Err(e) => Err(e)
      case Ok(q) => Checks.AddCheck(q, [p])
  }

  /** With distinct ids the registrations succeed and nest as parent → [exact, prefix → leaves]. */
  lemma AssembleShape(parent: Checks.Check, exact: Checks.Check, prefix: Checks.Check, leaves: seq<Checks.Check>)
    requires parent.children == [] && prefix.children == []
    requires exact.id != parent.id && prefix.id != parent.id
    requires forall i :: 0 <= i < |leaves| ==> leaves[i].id != prefix.id
    ensures Assemble(parent, exact, prefix, leaves).Ok?
    ensures var t := Assemble(parent, exact, prefix, leaves).value;
      t.(children := []) == parent &&
      |t.children| == 2 &&
      t.children[0] == exact.(parent := Some(parent.id)) &&
      t.children[1].(children := []) == prefix.(parent := Some(parent.id)) &&
      |t.children[1].children| == |leaves| &&
      forall i :: 0 <= i < |leaves| ==> t.children[1].children[i] == leaves[i].(parent := Some(prefix.id))
  {
    var p := Checks.AddCheck(prefix, leaves).value;
    assert p.(children := []) == prefix;
    var q := Checks.AddCheck(parent, [exact]).value;
    var t := Checks.AddCheck(q, [p]).value;
    assert t.children == q.children + [p.(parent := Some(parent.id))];
  }

  /** The registered subtree. */
  function Tree(): Result<Checks.Check>
  {
    Assemble(Parent(), ExactPlaceholder(), PrefixPlaceholder(), LeafChecks())
  }

  /** The registrations succeed and give path-rules → [exact, prefix → the eleven leaves]. */
  lemma TreeShape()
    ensures Tree().Ok?
    ensures var t := Tree().value;
      t.id == 7 && t.name == "path-rules" && t.hasRun && t.description == "" &&
      |t.children| == 2 &&
      t.children[0].name == "path-rules-exact" && t.children[0].children == [] &&
      t.children[1].name == "path-rules-prefix" &&
      |t.children[1].children| == 11 &&
      forall i :: 0 <= i < 11 ==>
        t.children[1].children[i].name == LeafName(i) &&
        t.children[1].children[i].parent == Some(9)
  {
    var leaves := LeafChecks();
    assert forall i :: 0 <= i < |leaves| ==> leaves[i].id == 10 + i;
    AssembleShape(Parent(), ExactPlaceholder(), PrefixPlaceholder(), leaves);
  }

  /** No check of the subtree declares an API version, so under any configuration nothing here runs. */
  lemma TreeNeverRuns(filter: string, config: Checks.Config, env: Checks.Env)
    ensures Tree().Ok?
    ensures Checks.Verify(Tree().value, filter, config, env) == Checks.Counts(0, 0, [])
  {
    TreeIncompatible(config.ingressAPIVersion);
    Checks.IncompatibleTreeRunsNothing(Tree().value, filter, config, env);
  }

  lemma AssembleIncompatible(parent: Checks.Check, exact: Checks.Check, prefix: Checks.Check,
                             leaves: seq<Checks.Check>, version: string)
    requires Assemble(parent, exact, prefix, leaves).Ok?
    requires Checks.NoneCompatible(parent, version) && Checks.NoneCompatible(exact, version)
    requires Checks.NoneCompatible(prefix, version) && Checks.NoneCompatibleAll(leaves, version)
    ensures Checks.NoneCompatible(Assemble(parent, exact, prefix, leaves).value, version)
  {
    var p := Checks.AddCheck(prefix, leaves);
    Checks.AddCheckKeepsIncompatible(prefix, leaves, version);
    var q := Checks.AddCheck(parent, [exact]);
    Checks.AddCheckKeepsIncompatible(parent, [exact], version);
    Checks.AddCheckKeepsIncompatible(q.value, [p.value], version);
  }

  lemma TreeIncompatible(version: string)
    ensures Tree().Ok?
    ensures Checks.NoneCompatible(Tree().value, version)
  {
    TreeShape();
    var leaves := LeafChecks();
    forall i | 0 <= i < |leaves|
      ensures Checks.NoneCompatible(leaves[i], version)
    {
      LeafCheckIncompatible(LeafAt(i), version);
    }
    AssembleIncompatible(Parent(), ExactPlaceholder(), PrefixPlaceholder(), leaves, version);
  }

  // ---------------------------------------------------------------------------
  // Reference router for Prefix paths

  /** One Ingress path rule and its backend. */
  datatype PathRule = PathRule(path: string, service: string)

  /** The rules the leaf descriptions name: '/', '/foo' and '/aaa/bbb/'. */
  function IngressRules(): seq<PathRule>
  {
    [PathRule("/", Catchall), PathRule("/foo", Foo), PathRule("/aaa/bbb/", AaaBbb)]
  }

  /** A rule's path without its trailing slashes: the trailing slash is ignored. */
  function RulePrefix(rule: string): string
  {
    TrimRightChar(rule, '/')
  }

  /**
   * Element-wise prefix match: the rule's path elements are the first
   * elements of the request path, so the request path is the rule's path or
   * continues it with '/'. The rule '/' matches every path.
   */
  predicate PrefixMatch(rule: string, path: string)
  {
    var p := RulePrefix(rule);
    p == "" || path == p || HasPrefix(path, p + "/")
  }

  /** The request path the Ingress sees: an empty URL path is sent as "/". */
  function RequestPath(path: string): string
  {
    if path == "" then "/" else path
  }

  /** The matching rule with the longest path, earliest on ties. */
  function Longest(rules: seq<PathRule>, path: string): (r: Option<PathRule>)
    ensures r.Some? ==> r.value in rules && PrefixMatch(r.value.path, path)
    ensures r.None? <==> forall i :: 0 <= i < |rules| ==> !PrefixMatch(rules[i].path, path)
    ensures r.Some? ==> forall i :: 0 <= i < |rules| && PrefixMatch(rules[i].path, path) ==>
      |RulePrefix(rules[i].path)| <= |RulePrefix(r.value.path)|
  {
    if |rules| == 0 then None
    else
      var rest := Longest(rules[1..], path);
      assert forall i :: 1 <= i < |rules| ==> rules[i] == rules[1..][i - 1];
      if !PrefixMatch(rules[0].path, path) then rest
      else if rest.None? || |RulePrefix(rest.value.path)| < |RulePrefix(rules[0].path)| then Some(rules[0])
      else rest
  }

  /** The backend a request path reaches, if any rule matches. */
  function Route(rules: seq<PathRule>, path: string): Option<string>
  {
    match Longest(rules, path)
    case None => None
    case Some(rule) => Some(rule.service)
  }

  /** A matching rule strictly longer than every other matching rule is the one chosen. */
  lemma LongestDetermined(rules: seq<PathRule>, path: string, k: nat)
    requires k < |rules| && PrefixMatch(rules[k].path, path)
    requires forall j :: 0 <= j < |rules| && j != k && PrefixMatch(rules[j].path, path) ==>
      |RulePrefix(rules[j].path)| < |RulePrefix(rules[k].path)|
    ensures Route(rules, path) == Some(rules[k].service)
  {
    var r := Longest(rules, path);
    assert r.Some?;
    var j :| 0 <= j < |rules| && rules[j] == r.value;
    assert |RulePrefix(rules[k].path)| <= |RulePrefix(r.value.path)|;
    assert j == k;
  }

  lemma RulePrefixes()
    ensures RulePrefix("/") == ""
    ensures RulePrefix("/foo") == "/foo"
    ensures RulePrefix("/aaa/bbb/") == "/aaa/bbb"
  {
  }

  /** Which rules a path matches, as three booleans for '/', '/foo' and '/aaa/bbb/'. */
  lemma Matches(path: string, foo: bool, aaaBbb: bool)
    requires foo <==> (path == "/foo" || HasPrefix(path, "/foo/"))
    requires aaaBbb <==> (path == "/aaa/bbb" || HasPrefix(path, "/aaa/bbb/"))
    requires !(foo && aaaBbb)
    ensures Route(IngressRules(), path) == Some(if foo then Foo else if aaaBbb then AaaBbb else Catchall)
  {
    RulePrefixes();
    assert "/foo" + "/" == "/foo/";
    assert "/aaa/bbb" + "/" == "/aaa/bbb/";
    var rules := IngressRules();
    assert PrefixMatch(rules[0].path, path);
    assert PrefixMatch(rules[1].path, path) <==> foo;
    assert PrefixMatch(rules[2].path, path) <==> aaaBbb;
    if foo {
      LongestDetermined(rules, path, 1);
    } else if aaaBbb {
      LongestDetermined(rules, path, 2);
    } else {
      LongestDetermined(rules, path, 0);
    }
  }

  /** The k-th leaf's expected backend is the one the reference router picks. */
  lemma RoutesAt(k: nat)
    requires k < 11
    ensures Route(IngressRules(), RequestPath(LeafPath(k))) == Some(LeafService(k))
  {
    if k < 4 {
      RoutesAtShort(k);
    } else if k < 8 {
      RoutesAtAaaBbb(k);
    } else {
      RoutesAtLong(k);
    }
  }

  lemma RoutesAtShort(k: nat)
    requires k < 4
    ensures Route(IngressRules(), RequestPath(LeafPath(k))) == Some(LeafService(k))
  {
    match k
    case 0 => Matches("/", false, false);
    case 1 => Matches("/foo", true, false);
    case 2 => Matches("/foo/", true, false);
    case 3 => Matches("/fo", false, false);
  }

  lemma RoutesAtAaaBbb(k: nat)
    requires 4 <= k < 8
    ensures Route(IngressRules(), RequestPath(LeafPath(k))) == Some(LeafService(k))
  {
    match k
    case 4 =>
      assert LeafPath(4) == "/aaa/bbb" && RequestPath("/aaa/bbb") == "/aaa/bbb";
      HasPrefixMismatch("/aaa/bbb", "/foo/", 1);
      Matches("/aaa/bbb", false, true);
    case 5 =>
      assert LeafPath(5) == "/aaa/bbb/" && RequestPath("/aaa/bbb/") == "/aaa/bbb/";
      HasPrefixMismatch("/aaa/bbb/", "/foo/", 1);
      HasPrefixOfConcat("/aaa/bbb/", "");
      assert "/aaa/bbb/" + "" == "/aaa/bbb/";
      Matches("/aaa/bbb/", false, true);
    case 6 =>
      assert LeafPath(6) == "/aaa/bbb/ccc" && RequestPath("/aaa/bbb/ccc") == "/aaa/bbb/ccc";
      HasPrefixMismatch("/aaa/bbb/ccc", "/foo/", 1);
      HasPrefixOfConcat("/aaa/bbb/", "ccc");
      assert "/aaa/bbb/" + "ccc" == "/aaa/bbb/ccc";
      Matches("/aaa/bbb/ccc", false, true);
    case 7 =>
      assert LeafPath(7) == "/aaa/bbbccc" && RequestPath("/aaa/bbbccc") == "/aaa/bbbccc";
      HasPrefixMismatch("/aaa/bbbccc", "/foo/", 1);
      HasPrefixMismatch("/aaa/bbbccc", "/aaa/bbb/", 8);
      Matches("/aaa/bbbccc", false, false);
  }

  lemma RoutesAtLong(k: nat)
    requires 8 <= k < 11
    ensures Route(IngressRules(), RequestPath(LeafPath(k))) == Some(LeafService(k))
  {
    var p := LeafPath(k);
    assert p[1] == 'r';
    HasPrefixMismatch(p, "/foo/", 1);
    HasPrefixMismatch(p, "/aaa/bbb/", 1);
    Matches(p, false, false);
  }

  /** Every leaf's expected backend is the one the reference router picks for its request path. */
  lemma ExpectedServicesFollowPrefixRouting()
    ensures forall i :: 0 <= i < 11 ==>
      Route(IngressRules(), RequestPath(Leaves()[i].path)) == Some(Leaves()[i].service)
  {
    forall i | 0 <= i < 11
      ensures Route(IngressRules(), RequestPath(Leaves()[i].path)) == Some(Leaves()[i].service)
    {
      RoutesAt(i);
    }
  }

  /**
   * The echoed path is expected to be the request path as sent: repeated
   * slashes are kept; only the empty path becomes "/", and the invalid
   * characters arrive percent-encoded.
   */
  lemma EchoedPathsAsSent()
    ensures forall i :: 1 <= i < 10 ==> Leaves()[i].expected == Leaves()[i].path
    ensures Leaves()[0].path == "" && Leaves()[0].expected == "/"
    ensures Leaves()[8].expected == ConsecutiveSlashesPath()
    ensures Leaves()[10].expected != Leaves()[10].path
  {
    forall i | 1 <= i < 10
      ensures Leaves()[i].expected == Leaves()[i].path
    {
      LeafFields(i);
    }
    LeafFields(0);
    LeafFields(8);
    LeafFields(10);
    assert EncodedInvalidCharactersPath() != InvalidCharactersPath() by {
      assert EncodedInvalidCharactersPath()[7] == '%';
      assert InvalidCharactersPath()[7] == ' ';
    }
  }

  lemma LeafFields(k: nat)
    requires k < 11
    ensures Leaves()[k].path == LeafPath(k) && Leaves()[k].expected == LeafEchoedPath(k)
  {
    assert Leaves()[k] == LeafAt(k);
  }

  /** Every leaf targets the same Ingress Host header and the echoed path. */
  lemma LeavesShareHostOverride()
    ensures forall i :: 0 <= i < 11 ==> Leaves()[i].hostOverride == IngressName && Leaves()[i].field == EchoedPath
  {
  }
}
