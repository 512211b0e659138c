/**
 * The echo-server provisioning of test/kubernetes/deployment.go with the API
 * server abstracted: the objects `NewEchoDeployment` creates for one backend,
 * the order in which `DeploymentsFromIngress` visits an Ingress's backends,
 * and the endpoint count `waitForEndpoints` polls for.
 */
module Deployments {
  import opened Wrappers
  import opened Kubernetes

  const EchoService: string := "echo"
  const DefaultServicePort: int := 8080

  /** The deployment behind a backend: the Ingress name and the service name joined by "-". */
  function DeploymentName(name: string, serviceName: string): string
  {
    name + "-" + serviceName
  }

  /** A service port: its name and number. */
  datatype ServicePort = ServicePort(name: string, port: int)

  /**
   * The port of the created service, starting from the one the service
   * template rendered: its name replaced by a non-empty `servicePortName`,
   * its number 8080 when `servicePort` is 0.
   */
  function FinalPort(rendered: ServicePort, servicePortName: string, servicePort: int): (p: ServicePort)
    ensures p.name == (if servicePortName != "" then servicePortName else rendered.name)
    ensures p.port == (if servicePort == 0 then DefaultServicePort else rendered.port)
  {
    var named := if servicePortName != "" then rendered.(name := servicePortName) else rendered;
    if servicePort == 0 then named.(port := DefaultServicePort) else named
  }

  /** Applying the overrides again changes nothing. */
  lemma FinalPortIdempotent(rendered: ServicePort, servicePortName: string, servicePort: int)
    ensures FinalPort(FinalPort(rendered, servicePortName, servicePort), servicePortName, servicePort) ==
            FinalPort(rendered, servicePortName, servicePort)
  {
  }

  /** What the API server answers for an existing deployment. */
  datatype Lookup = Found | NotFound | LookupError(error: string)

  /** The cluster writes `NewEchoDeployment` performs, in order. */
  datatype Effect =
    | CreateDeployment(namespace: string, name: string)
    | CreateService(namespace: string, name: string, port: ServicePort)
    | WaitForEndpoints(namespace: string, name: string, expected: int)

  /**
   * The cluster as `NewEchoDeployment` sees it: the outcome of each write,
   * with rendering, decoding and display errors folded into the write they
   * precede.
   */
  datatype Cluster = Cluster(
    existing: (string, string) -> Lookup,
    renderedPort: ServicePort,
    apply: Effect -> Option<string>)

  /** Performs `effects` in order until the first error. */
  function Perform(effects: seq<Effect>, apply: Effect -> Option<string>): (r: (seq<Effect>, Option<string>))
    ensures r.0 <= effects
    ensures r.1.None? <==> r.0 == effects && forall i :: 0 <= i < |effects| ==> apply(effects[i]).None?
    ensures r.1.Some? ==> |r.0| > 0 && r.1 == apply(r.0[|r.0| - 1]) &&
                          forall i :: 0 <= i < |r.0| - 1 ==> apply(r.0[i]).None?
  {
    if |effects| == 0 then ([], None)
    else if apply(effects[0]).Some? then ([effects[0]], apply(effects[0]))
    else
      var rest := Perform(effects[1..], apply);
      assert forall i :: 1 <= i < |effects| ==> effects[i] == effects[1..][i - 1];
      ([effects[0]] + rest.0, rest.1)
  }

  /** The writes for one backend when no deployment exists yet. */
  function Plan(namespace: string, name: string, serviceName: string, port: ServicePort): seq<Effect>
  {
    [CreateDeployment(namespace, DeploymentName(name, serviceName)),
     CreateService(namespace, serviceName, port),
     WaitForEndpoints(namespace, serviceName, 1)]
  }

  /**
   * `NewEchoDeployment`: nothing is written when the deployment already
   * exists or the lookup fails for a reason other than not-found; otherwise
   * the deployment, then the service, then the wait for one endpoint.
   */
  function NewEchoDeployment(cluster: Cluster, namespace: string, name: string, serviceName: string,
                             servicePortName: string, servicePort: int): (r: (seq<Effect>, Option<string>))
    ensures cluster.existing(namespace, DeploymentName(name, serviceName)) == Found ==> r == ([], None)
    ensures cluster.existing(namespace, DeploymentName(name, serviceName)).LookupError? ==>
      r == ([], Some(cluster.existing(namespace, DeploymentName(name, serviceName)).error))
    ensures cluster.existing(namespace, DeploymentName(name, serviceName)) == NotFound ==>
      var plan := Plan(namespace, name, serviceName, FinalPort(cluster.renderedPort, servicePortName, servicePort));
      r.0 <= plan &&
      (r.1.None? <==> r.0 == plan && forall i :: 0 <= i < |plan| ==> cluster.apply(plan[i]).None?) &&
      (r.1.Some? ==> |r.0| > 0 && r.1 == cluster.apply(r.0[|r.0| - 1]) &&
                     forall i :: 0 <= i < |r.0| - 1 ==> cluster.apply(r.0[i]).None?)
  {
    match cluster.existing(namespace, DeploymentName(name, serviceName))
    case Found => ([], None)
    case LookupError(e) => ([], Some(e))
    case NotFound =>
      Perform(Plan(namespace, name, serviceName, FinalPort(cluster.renderedPort, servicePortName, servicePort)), cluster.apply)
  }

  /** The deployment is always written before its service, and the service before the wait. */
  lemma DeploymentBeforeService(cluster: Cluster, namespace: string, name: string, serviceName: string,
                                servicePortName: string, servicePort: int)
    ensures var effects := NewEchoDeployment(cluster, namespace, name, serviceName, servicePortName, servicePort).0;
      (|effects| > 0 ==> effects[0] == CreateDeployment(namespace, DeploymentName(name, serviceName))) &&
      (|effects| > 1 ==> effects[1].CreateService? && effects[1].name == serviceName) &&
      (|effects| > 2 ==> effects[2] == WaitForEndpoints(namespace, serviceName, 1))
  {
  }

  // ---------------------------------------------------------------------------
  // Backends of an Ingress

  /** The backends of the rules' HTTP paths, rule by rule and path by path, skipping rules without HTTP. */
  function PathBackends(rules: seq<Rule>): seq<Backend>
  {
    if |rules| == 0 then [] else RuleBackends(rules[0]) + PathBackends(rules[1..])
  }

  function RuleBackends(rule: Rule): seq<Backend>
  {
    match rule.http
    case None => []
    case Some(paths) => PathsBackends(paths)
  }

  function PathsBackends(paths: seq<HttpPath>): (r: seq<Backend>)
    ensures |r| == |paths|
    ensures forall i :: 0 <= i < |paths| ==> r[i] == paths[i].backend
  {
    seq(|paths|, i requires 0 <= i < |paths| => paths[i].backend)
  }

  /** Every backend `DeploymentsFromIngress` visits, in visiting order: the default backend first. */
  function Backends(spec: IngressSpec): seq<Backend>
  {
    (if spec.defaultBackend.Some? then [spec.defaultBackend.value] else []) + PathBackends(spec.rules)
  }

  /** Deploys each backend in order until the first error: the backends tried, and the error. */
  function DeployAll(backends: seq<Backend>, deploy: Backend -> Option<string>): (seq<Backend>, Option<string>)
  {
    if |backends| == 0 then ([], None)
    else if deploy(backends[0]).Some? then ([backends[0]], deploy(backends[0]))
    else
      var rest := DeployAll(backends[1..], deploy);
      ([backends[0]] + rest.0, rest.1)
  }

  /**
   * Deployment stops at the first error: the backends tried are a prefix of
   * the list, all but the last deployed cleanly, and the last one failed
   * with the returned error; without an error every backend was deployed.
   */
  lemma {:induction false} DeployAllStops(backends: seq<Backend>, deploy: Backend -> Option<string>)
    ensures var r := DeployAll(backends, deploy);
      r.0 <= backends &&
      (r.1.None? <==> r.0 == backends && forall i :: 0 <= i < |backends| ==> deploy(backends[i]).None?) &&
      (r.1.Some? ==> (|r.0| > 0 && deploy(r.0[|r.0| - 1]) == r.1 &&
                      forall i :: 0 <= i < |r.0| - 1 ==> deploy(r.0[i]).None?))
  {
    if |backends| > 0 && deploy(backends[0]).None? {
      DeployAllStops(backends[1..], deploy);
      assert forall i :: 1 <= i < |backends| ==> backends[i] == backends[1..][i - 1];
    }
  }

  /** Deploying a concatenation: the first part, then (if it went cleanly) the second. */
  lemma {:induction false} DeployAllAppend(a: seq<Backend>, b: seq<Backend>, deploy: Backend -> Option<string>)
    ensures DeployAll(a + b, deploy) ==
      if DeployAll(a, deploy).1.Some? then DeployAll(a, deploy)
      else (DeployAll(a, deploy).0 + DeployAll(b, deploy).0, DeployAll(b, deploy).1)
  {
    if |a| == 0 {
      assert a + b == b;
      assert [] + DeployAll(b, deploy).0 == DeployAll(b, deploy).0;
    } else {
      assert (a + b)[0] == a[0];
      assert (a + b)[1..] == a[1..] + b;
      DeployAllAppend(a[1..], b, deploy);
      if deploy(a[0]).None? && DeployAll(a[1..], deploy).1.None? {
        var x := DeployAll(a[1..], deploy).0;
        var y := DeployAll(b, deploy).0;
        assert [a[0]] + (x + y) == ([a[0]] + x) + y;
      }
    }
  }

  /** The inner loop over one rule's paths. */
  method DeployPaths(paths: seq<HttpPath>, deploy: Backend -> Option<string>)
    returns (done: seq<Backend>, err: Option<string>)
    ensures (done, err) == DeployAll(PathsBackends(paths), deploy)
  {
    var all := PathsBackends(paths);
    done := [];
    assert all[0..] == all;
    assert [] + DeployAll(all, deploy).0 == DeployAll(all, deploy).0;
    for p := 0 to |paths|
      invariant DeployAll(all, deploy) == (done + DeployAll(all[p..], deploy).0, DeployAll(all[p..], deploy).1)
    {
      var b := paths[p].backend;
      assert all[p..][0] == b;
      assert all[p..][1..] == all[p + 1..];
      var e := deploy(b);
      if e.Some? {
        return done + [b], e;
      }
      ghost var rest := DeployAll(all[p + 1..], deploy).0;
      assert done + ([b] + rest) == (done + [b]) + rest;
      done := done + [b];
    }
    assert all[|paths|..] == [];
    assert done + [] == done;
    err := None;
  }

  /**
   * `DeploymentsFromIngress`: the default backend, then every path of every
   * rule with an HTTP section, in order, stopping at the first error; it
   * returns the backends tried (the failing one last) and the error.
   */
  method DeploymentsFromIngress(spec: IngressSpec, deploy: Backend -> Option<string>)
    returns (visited: seq<Backend>, err: Option<string>)
    ensures (visited, err) == DeployAll(Backends(spec), deploy)
  {
    var head: seq<Backend> := [];
    if spec.defaultBackend.Some? {
      var d := spec.defaultBackend.value;
      var e := deploy(d);
      if e.Some? {
        DeployAllAppend([d], PathBackends(spec.rules), deploy);
        return [d], e;
      }
      head := [d];
      assert head[1..] == [];
      assert DeployAll(head, deploy) == ([d] + DeployAll([], deploy).0, None);
      assert [d] + [] == [d];
    }
    assert DeployAll(head, deploy) == (head, None);
    var rest, e := DeployRules(spec.rules, deploy);
    DeployAllAppend(head, PathBackends(spec.rules), deploy);
    return head + rest, e;
  }

  /** One rule of the loop: its paths' backends are deployed before the later rules'. */
  lemma DeployRuleStep(rules: seq<Rule>, r: nat, deploy: Backend -> Option<string>)
    requires r < |rules|
    ensures var x := RuleBackends(rules[r]);
      var y := PathBackends(rules[r + 1..]);
      DeployAll(PathBackends(rules[r..]), deploy) ==
        if DeployAll(x, deploy).1.Some? then DeployAll(x, deploy)
        else (x + DeployAll(y, deploy).0, DeployAll(y, deploy).1)
    ensures rules[r].http.None? ==> DeployAll(PathBackends(rules[r..]), deploy) == DeployAll(PathBackends(rules[r + 1..]), deploy)
  {
    var x := RuleBackends(rules[r]);
    var y := PathBackends(rules[r + 1..]);
    assert rules[r..][0] == rules[r] && rules[r..][1..] == rules[r + 1..];
    assert PathBackends(rules[r..]) == x + y;
    DeployAllAppend(x, y, deploy);
    DeployAllStops(x, deploy);
    if rules[r].http.None? {
      assert [] + DeployAll(y, deploy).0 == DeployAll(y, deploy).0;
    }
  }

  /** The loop of `DeploymentsFromIngress` over the rules. */
  method DeployRules(rules: seq<Rule>, deploy: Backend -> Option<string>)
    returns (visited: seq<Backend>, err: Option<string>)
    ensures (visited, err) == DeployAll(PathBackends(rules), deploy)
  {
    visited := [];
    assert rules[0..] == rules;
    assert [] + DeployAll(PathBackends(rules), deploy).0 == DeployAll(PathBackends(rules), deploy).0;
    for r := 0 to |rules|
      invariant DeployAll(PathBackends(rules), deploy) ==
        (visited + DeployAll(PathBackends(rules[r..]), deploy).0, DeployAll(PathBackends(rules[r..]), deploy).1)
    {
      var rule := rules[r];
      DeployRuleStep(rules, r, deploy);
      if rule.http.None? {
        continue;
      }
      var done, e := DeployPaths(rule.http.value, deploy);
      if e.Some? {
        return visited + done, e;
      }
      assert RuleBackends(rule) == PathsBackends(rule.http.value);
      DeployAllStops(RuleBackends(rule), deploy);
      ghost var rest := DeployAll(PathBackends(rules[r + 1..]), deploy).0;
      assert visited + (done + rest) == (visited + done) + rest;
      visited := visited + done;
    }
    assert rules[|rules|..] == [];
    assert visited + [] == visited;
    return visited, None;
  }

  // ---------------------------------------------------------------------------
  // Endpoints

  /** A subset of an Endpoints object, reduced to its ready addresses. */
  datatype Subset = Subset(addresses: seq<string>)

  /** An Endpoints object; `subsets` is `None` when nil. */
  datatype Endpoints = Endpoints(subsets: Option<seq<Subset>>)

  /** The reference count: the ready addresses of every subset. */
  function TotalAddresses(subsets: seq<Subset>): nat
  {
    if |subsets| == 0 then 0
    else TotalAddresses(subsets[..|subsets| - 1]) + |subsets[|subsets| - 1].addresses|
  }

  /** `countReadyEndpoints`: 0 for a nil object or nil subsets, else the addresses over all subsets. */
  method CountReadyEndpoints(e: Option<Endpoints>) returns (num: nat)
    ensures e.None? || e.value.subsets.None? ==> num == 0
    ensures e.Some? && e.value.subsets.Some? ==> num == TotalAddresses(e.value.subsets.value)
  {
    if e.None? || e.value.subsets.None? {
      return 0;
    }
    var subsets := e.value.subsets.value;
    num := 0;
    for i := 0 to |subsets|
      invariant num == TotalAddresses(subsets[..i])
    {
      assert subsets[..i + 1][..i] == subsets[..i];
      num := num + |subsets[i].addresses|;
    }
    assert subsets[..|subsets|] == subsets;
  }

  /** Endpoints are counted subset by subset: the count of a concatenation is the sum. */
  lemma {:induction false} TotalAddressesAppend(a: seq<Subset>, b: seq<Subset>)
    ensures TotalAddresses(a + b) == TotalAddresses(a) + TotalAddresses(b)
    decreases |b|
  {
    if |b| > 0 {
      TotalAddressesAppend(a, b[..|b| - 1]);
      assert (a + b)[..|a + b| - 1] == a + b[..|b| - 1];
    } else {
      assert a + b == a;
    }
  }

  function Count(e: Option<Endpoints>): nat
  {
    if e.None? || e.value.subsets.None? then 0 else TotalAddresses(e.value.subsets.value)
  }

  const TimedOut: string := "timed out waiting for the condition"

  /**
   * `waitForEndpoints` over the successive Endpoints reads that fit in the
   * timeout (`None` for not found): nothing to wait for when 0 endpoints are
   * expected; otherwise success at the first read with exactly the expected
   * count, and a timeout when none has it.
   */
  function WaitForEndpointsCount(expected: int, polls: seq<Option<Endpoints>>): (r: Option<string>)
    ensures expected == 0 ==> r.None?
    ensures expected != 0 ==> (r.None? <==> exists i :: 0 <= i < |polls| && Count(polls[i]) == expected)
    ensures r.Some? ==> r.value == TimedOut
  {
    if expected == 0 then None
    else if |polls| == 0 then Some(TimedOut)
    else if Count(polls[0]) == expected then None
    else
      var r := WaitForEndpointsCount(expected, polls[1..]);
      assert forall i :: 1 <= i < |polls| ==> polls[i] == polls[1..][i - 1];
      r
  }
}
