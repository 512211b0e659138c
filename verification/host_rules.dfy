/**
 * The host-rules checks of internal/pkg/suite/hostRulesCheck.go: a parent
 * that settles the host to connect to, and four leaves that each send a
 * different Host header and expect a backend. The expected backends are
 * compared with a reference router for Kubernetes Ingress host rules: an
 * exact host, and a wildcard "*.foo.com" that covers exactly one extra
 * leftmost DNS label; anything else reaches the default backend.
 */
module HostRules {
  import opened Wrappers
  import opened Text
  import opened Capture
  import opened RoutingChecks
  import Checks

  const IngressName: string := "host-rules"
  const ExactService: string := "host-rules-exact"
  const WildcardService: string := "host-rules-wildcard"
  const DefaultBackend: string := "default-backend"

  function LeafName(k: nat): string
  {
    match k
    case 0 => "host-rules-exact-match"
    case 1 => "host-rules-wildcard-single-label"
    case 2 => "host-rules-wildcard-multiple-labels"
    case _ => "host-rules-wildcard-no-label"
  }

  function Description(k: nat): string
  {
    match k
    case 0 => "Ingress with exact host rule should send traffic to the correct backend service"
    case 1 => "Ingress with wildcard host rule should match a single label"
    case 2 => "Ingress with wildcard host rule should only match a single label & fallback to default-backend"
    case _ => "Ingress with wildcard host rule should match exactly one single label & fallback to default-backend"
  }

  /** The Host header each leaf sends, which is also the host it expects echoed. */
  function LeafHost(k: nat): string
  {
    match k
    case 0 => "foo.bar.com"
    case 1 => "wildcard.foo.com"
    case 2 => "aaa.bbb.foo.com"
    case _ => "foo.com"
  }

  /** The backend each leaf expects. */
  function LeafService(k: nat): string
  {
    match k
    case 0 => ExactService
    case 1 => WildcardService
    case _ => DefaultBackend
  }

  /** The k-th leaf: no path, its Host override, and the echoed host compared with that override. */
  function LeafAt(k: nat): Leaf
  {
    Leaf(3 + k, LeafName(k), Description(k), "", LeafHost(k), LeafService(k), EchoedHost, LeafHost(k))
  }

  function Leaves(): (ls: seq<Leaf>)
    ensures |ls| == 4
    ensures forall k :: 0 <= k < 4 ==> ls[k] == LeafAt(k)
  {
    seq(4, k requires 0 <= k < 4 => LeafAt(k))
  }

  /** Each leaf expects the echoed Host to be exactly the Host header it sent. */
  lemma LeavesExpectTheirHost()
    ensures forall k :: 0 <= k < 4 ==>
      Leaves()[k].field == EchoedHost && Leaves()[k].expected == Leaves()[k].hostOverride &&
      Leaves()[k].hostOverride != "" && Leaves()[k].path == ""
  {
    forall k | 0 <= k < 4
      ensures Leaves()[k].field == EchoedHost && Leaves()[k].expected == Leaves()[k].hostOverride
      ensures Leaves()[k].hostOverride != "" && Leaves()[k].path == ""
    {
      assert Leaves()[k] == LeafAt(k);
      LeafHostNonEmpty(k);
    }
  }

  lemma LeafHostNonEmpty(k: nat)
    ensures LeafHost(k) != ""
  {
    match k
    case 0 => assert |LeafHost(0)| == 11;
    case 1 => assert |LeafHost(1)| == 16;
    case 2 => assert |LeafHost(2)| == 15;
    case _ => assert |LeafHost(k)| == 7;
  }

  // ---------------------------------------------------------------------------
  // The subtree

  /** The parent: a `Run` (`ParentRun` with "host-rules") and no description. */
  function Parent(): Checks.Check
  {
    Checks.Check(2, "host-rules", "", [], true, None, [], None)
  }

  function LeafChecks(): (cs: seq<Checks.Check>)
    ensures |cs| == 4
    ensures forall i :: 0 <= i < 4 ==> cs[i] == LeafCheck(LeafAt(i))
  {
    seq(4, i requires 0 <= i < 4 => LeafCheck(LeafAt(i)))
  }

  /** The `init` registrations: the four leaves, in order, under the parent. */
  function Tree(): Result<Checks.Check>
  {
    Checks.AddCheck(Parent(), LeafChecks())
  }

  lemma TreeShape()
    ensures Tree().Ok?
    ensures var t := Tree().value;
      t.id == 2 && t.name == "host-rules" && t.hasRun && t.description == "" && |t.children| == 4 &&
      forall i :: 0 <= i < 4 ==>
        t.children[i] == LeafCheck(LeafAt(i)).(parent := Some(2))
  {
    var leaves := LeafChecks();
    assert forall i :: 0 <= i < |leaves| ==> leaves[i].id == 3 + i;
    assert Tree().value.(children := []) == Parent();
  }

  /** No check of the subtree declares an API version, so nothing here ever runs. */
  lemma TreeNeverRuns(filter: string, config: Checks.Config, env: Checks.Env)
    ensures Tree().Ok?
    ensures Checks.Verify(Tree().value, filter, config, env) == Checks.Counts(0, 0, [])
  {
    TreeIncompatible(config.ingressAPIVersion);
    Checks.IncompatibleTreeRunsNothing(Tree().value, filter, config, env);
  }

  lemma TreeIncompatible(version: string)
    ensures Tree().Ok?
    ensures Checks.NoneCompatible(Tree().value, version)
  {
    TreeShape();
    var leaves := LeafChecks();
    forall i | 0 <= i < |leaves|
      ensures Checks.NoneCompatible(leaves[i], version)
    {
      assert leaves[i] == LeafCheck(LeafAt(i));
      LeafCheckIncompatible(LeafAt(i), version);
    }
    assert Checks.NoneCompatibleAll(leaves, version);
    Checks.AddCheckKeepsIncompatible(Parent(), leaves, version);
  }

  // ---------------------------------------------------------------------------
  // Reference router for host rules

  /** The length of the leftmost DNS label: the characters before the first '.'. */
  function FirstLabelLength(host: string): (n: nat)
    ensures n <= |host|
    ensures forall i :: 0 <= i < n ==> host[i] != '.'
    ensures n < |host| ==> host[n] == '.'
  {
    if |host| == 0 || host[0] == '.' then 0 else 1 + FirstLabelLength(host[1..])
  }

  /**
   * A wildcard rule "*<suffix>" (suffix starting with '.') matches when the
   * host is one non-empty label followed by the suffix.
   */
  predicate WildcardMatch(suffix: string, host: string)
  {
    var n := FirstLabelLength(host);
    0 < n < |host| && host[n..] == suffix
  }

  /** A host rule: exact, or a wildcard given by its suffix. */
  datatype HostRule = Exact(host: string, service: string) | Wildcard(suffix: string, service: string)

  predicate RuleMatch(rule: HostRule, host: string)
  {
    match rule
    case Exact(h, _) => host == h
    case Wildcard(suffix, _) => WildcardMatch(suffix, host)
  }

  /** The rules the leaf descriptions name: "foo.bar.com" exactly and "*.foo.com". */
  function IngressRules(): seq<HostRule>
  {
    [Exact("foo.bar.com", ExactService), Wildcard(".foo.com", WildcardService)]
  }

  /** Rule k is of the given kind and matches, and no earlier rule of that kind does. */
  predicate FirstOfKindAt(rules: seq<HostRule>, host: string, exact: bool, k: int)
  {
    0 <= k < |rules| && rules[k].Exact? == exact && RuleMatch(rules[k], host) &&
    forall j :: 0 <= j < k && rules[j].Exact? == exact ==> !RuleMatch(rules[j], host)
  }

  /**
   * Exact rules take precedence over wildcard rules, the first matching rule
   * of a kind wins, and no match reaches the default backend.
   */
  function Route(rules: seq<HostRule>, host: string, defaultService: string): (s: string)
    ensures (exists i :: 0 <= i < |rules| && rules[i].Exact? && RuleMatch(rules[i], host)) ==>
      exists i :: FirstOfKindAt(rules, host, true, i) && s == rules[i].service
    ensures (forall i :: 0 <= i < |rules| && rules[i].Exact? ==> !RuleMatch(rules[i], host)) &&
            (exists i :: 0 <= i < |rules| && !rules[i].Exact? && RuleMatch(rules[i], host)) ==>
      exists i :: FirstOfKindAt(rules, host, false, i) && s == rules[i].service
    ensures (forall i :: 0 <= i < |rules| ==> !RuleMatch(rules[i], host)) ==> s == defaultService
  {
    var exact := FirstMatch(rules, host, true);
    if exact.Some? then exact.value.service
    else
      var wildcard := FirstMatch(rules, host, false);
      if wildcard.Some? then wildcard.value.service else defaultService
  }

  /** The first matching rule of the given kind, or none when no rule of that kind matches. */
  function FirstMatch(rules: seq<HostRule>, host: string, exact: bool): (r: Option<HostRule>)
    ensures r.Some? ==> r.value in rules && r.value.Exact? == exact && RuleMatch(r.value, host)
    ensures r.Some? ==> exists k :: FirstOfKindAt(rules, host, exact, k) && rules[k] == r.value
    ensures r.None? ==> forall i :: 0 <= i < |rules| && rules[i].Exact? == exact ==> !RuleMatch(rules[i], host)
  {
    if |rules| == 0 then None
    else if rules[0].Exact? == exact && RuleMatch(rules[0], host) then
      assert FirstOfKindAt(rules, host, exact, 0);
      Some(rules[0])
    else
      assert forall i :: 1 <= i < |rules| ==> rules[i] == rules[1..][i - 1];
      var r := FirstMatch(rules[1..], host, exact);
      assert r.Some? ==> exists k :: FirstOfKindAt(rules, host, exact, k) && rules[k] == r.value by {
        if r.Some? {
          var k' :| FirstOfKindAt(rules[1..], host, exact, k') && rules[1..][k'] == r.value;
          assert FirstOfKindAt(rules, host, exact, k' + 1) by {
            forall j | 0 <= j < k' + 1 && rules[j].Exact? == exact
              ensures !RuleMatch(rules[j], host)
            {
              if j > 0 { assert rules[j] == rules[1..][j - 1]; }
            }
          }
        }
      }
      r
  }

  /** The leftmost label is the prefix up to the first '.', whatever follows it. */
  lemma {:induction false} FirstLabelOfConcat(first: string, rest: string)
    requires forall i :: 0 <= i < |first| ==> first[i] != '.'
    requires |rest| > 0 && rest[0] == '.'
    ensures FirstLabelLength(first + rest) == |first|
    decreases |first|
  {
    if |first| > 0 {
      assert (first + rest)[1..] == first[1..] + rest;
      FirstLabelOfConcat(first[1..], rest);
    } else {
      assert first + rest == rest;
    }
  }

  /**
   * A wildcard rule matches exactly the hosts made of one non-empty first
   * without '.' followed by the rule's suffix.
   */
  lemma WildcardIsSingleLabel(suffix: string, host: string)
    requires |suffix| > 0 && suffix[0] == '.'
    ensures WildcardMatch(suffix, host) <==>
      exists first :: first != "" && (forall i :: 0 <= i < |first| ==> first[i] != '.') && host == first + suffix
  {
    if WildcardMatch(suffix, host) {
      var n := FirstLabelLength(host);
      var first := host[..n];
      assert host == first + suffix;
      assert first != "" && (forall i :: 0 <= i < |first| ==> first[i] != '.');
    }
    if exists first :: first != "" && (forall i :: 0 <= i < |first| ==> first[i] != '.') && host == first + suffix {
      var first :| first != "" && (forall i :: 0 <= i < |first| ==> first[i] != '.') && host == first + suffix;
      FirstLabelOfConcat(first, suffix);
      assert host[|first|..] == suffix;
    }
  }

  /** Each leaf's expected backend is the one the reference router picks for its Host header. */
  lemma ExpectedServicesFollowHostRouting()
    ensures forall k :: 0 <= k < 4 ==>
      Route(IngressRules(), Leaves()[k].hostOverride, DefaultBackend) == Leaves()[k].service
  {
    forall k | 0 <= k < 4
      ensures Route(IngressRules(), LeafHost(k), DefaultBackend) == LeafService(k)
    {
      RoutesAt(k);
    }
  }

  lemma RoutesAt(k: nat)
    requires k < 4
    ensures Route(IngressRules(), LeafHost(k), DefaultBackend) == LeafService(k)
  {
    match k
    case 0 => RoutesExact();
    case 1 => RoutesWildcard();
    case 2 => RoutesMultipleLabels();
    case 3 => RoutesNoLabel();
  }

  lemma RoutesExact()
    ensures Route(IngressRules(), "foo.bar.com", DefaultBackend) == ExactService
  {
    assert FirstMatch(IngressRules(), "foo.bar.com", true) == Some(IngressRules()[0]);
  }

  lemma RoutesWildcard()
    ensures Route(IngressRules(), "wildcard.foo.com", DefaultBackend) == WildcardService
  {
    WildcardHostMatches();
    assert "wildcard.foo.com" != "foo.bar.com" by { assert |"wildcard.foo.com"| != |"foo.bar.com"|; }
    RoutesToWildcard("wildcard.foo.com");
  }

  /** Any host other than the exact one that the wildcard matches reaches the wildcard's backend. */
  lemma RoutesToWildcard(host: string)
    requires host != "foo.bar.com" && WildcardMatch(".foo.com", host)
    ensures Route(IngressRules(), host, DefaultBackend) == WildcardService
  {
    var rules := IngressRules();
    assert rules[1..] == [rules[1]];
    assert FirstMatch(rules, host, true) == None;
    assert FirstMatch(rules, host, false) == Some(rules[1]);
  }

  lemma WildcardHostMatches()
    ensures WildcardMatch(".foo.com", "wildcard.foo.com")
  {
    assert "wildcard.foo.com" == "wildcard" + ".foo.com";
    FirstLabelOfConcat("wildcard", ".foo.com");
    assert "wildcard.foo.com"[8..] == ".foo.com";
  }

  lemma RoutesMultipleLabels()
    ensures Route(IngressRules(), "aaa.bbb.foo.com", DefaultBackend) == DefaultBackend
  {
    var rules := IngressRules();
    assert "aaa.bbb.foo.com" == "aaa" + ".bbb.foo.com";
    FirstLabelOfConcat("aaa", ".bbb.foo.com");
    assert "aaa.bbb.foo.com"[3..] == ".bbb.foo.com";
    assert ".bbb.foo.com" != ".foo.com" by { assert |".bbb.foo.com"| != |".foo.com"|; }
    assert "aaa.bbb.foo.com" != "foo.bar.com" by { assert |"aaa.bbb.foo.com"| != |"foo.bar.com"|; }
    assert !RuleMatch(rules[0], "aaa.bbb.foo.com") && !RuleMatch(rules[1], "aaa.bbb.foo.com");
  }

  lemma RoutesNoLabel()
    ensures Route(IngressRules(), "foo.com", DefaultBackend) == DefaultBackend
  {
    var rules := IngressRules();
    assert "foo.com" == "foo" + ".com";
    FirstLabelOfConcat("foo", ".com");
    assert "foo.com"[3..] == ".com";
    assert ".com" != ".foo.com" by { assert |".com"| != |".foo.com"|; }
    assert "foo.com" != "foo.bar.com" by { assert |"foo.com"| != |"foo.bar.com"|; }
    assert !RuleMatch(rules[0], "foo.com") && !RuleMatch(rules[1], "foo.com");
  }
}
