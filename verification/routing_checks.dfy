/**
 * What the host-rules and path-rules checks of internal/pkg/suite share: a
 * parent check that settles the host to send to, and leaves that send one
 * request and compare the echoed service, one echoed field and the status.
 */
module RoutingChecks {
  import opened Wrappers
  import opened Format
  import opened Assert
  import opened Capture
  import Checks

  const ServiceTemplate: string := "expected the downstream service would be '%s' but was '%s'"
  const PathTemplate: string := "expected the request path would be '%s' but was '%s'"
  const HostTemplate: string := "expected the request host would be '%s' but was '%s'"
  const StatusTemplate: string := "expected statuscode to be %s but was %s"

  /** The echoed request field a leaf compares besides the service. */
  datatype Field = EchoedPath | EchoedHost

  function FieldOf(f: Field, req: CapturedRequest): string
  {
    match f
    case EchoedPath => req.path
    case EchoedHost => req.host
  }

  function FieldTemplate(f: Field): string
  {
    match f
    case EchoedPath => PathTemplate
    case EchoedHost => HostTemplate
  }

  /**
   * One leaf: the path appended to `http://<host>`, the Host override, and
   * the expected downstream service and echoed field.
   */
  datatype Leaf = Leaf(
    id: nat,
    name: string,
    description: string,
    path: string,
    hostOverride: string,
    service: string,
    field: Field,
    expected: string)

  /** The leaf's three `DeepEquals` calls on a fresh assertion set. */
  function LeafAssertions(leaf: Leaf, rt: RoundTrip): (a: AssertionSet)
    ensures |a| <= 3
    ensures a == [] <==>
      rt.request.downstreamServiceId == leaf.service &&
      FieldOf(leaf.field, rt.request) == leaf.expected &&
      rt.response.statusCode == 200
  {
    var a0 := DeepEquals([], Str(rt.request.downstreamServiceId), Str(leaf.service), ServiceTemplate);
    var a1 := DeepEquals(a0, Str(FieldOf(leaf.field, rt.request)), Str(leaf.expected), FieldTemplate(leaf.field));
    DeepEquals(a1, Int(rt.response.statusCode), Int(200), StatusTemplate)
  }

  /** The location a leaf requests: `fmt.Sprintf("http://%s<path>", host)`. */
  function LeafLocation(leaf: Leaf, host: string): string
  {
    "http://" + host + leaf.path
  }

  /** A leaf's `Run`: a capture error fails with that error; otherwise it passes iff nothing was recorded. */
  function LeafRun(leaf: Leaf, host: string, transport: Transport): (r: Checks.RunResult)
    ensures r.err.Some? <==> CaptureRoundTrip(transport, LeafLocation(leaf, host), leaf.hostOverride).Err?
    ensures r.success ==> r.err.None?
  {
    match CaptureRoundTrip(transport, LeafLocation(leaf, host), leaf.hostOverride)
    case Err(e) => Checks.RunResult(false, Some(e))
    case Ok(rt) => Checks.RunResult(LeafAssertions(leaf, rt) == [], None)
  }

  /**
   * A leaf passes exactly when the echo server answered with the expected
   * service, the expected echoed field and status 200.
   */
  lemma LeafRunPasses(leaf: Leaf, host: string, transport: Transport)
    ensures LeafRun(leaf, host, transport).success <==>
      var rt := CaptureRoundTrip(transport, LeafLocation(leaf, host), leaf.hostOverride);
      rt.Ok? &&
      rt.value.request.downstreamServiceId == leaf.service &&
      FieldOf(leaf.field, rt.value.request) == leaf.expected &&
      rt.value.response.statusCode == 200
  {
  }

  /** The outcome of a parent's `Run` and the host it leaves for its leaves. */
  datatype ParentOutcome = ParentOutcome(result: Checks.RunResult, host: string)

  /**
   * A parent's `Run`: a configured insecure host is taken as is; otherwise
   * the Ingress `ingressName` in namespace "default" is looked up, and a
   * lookup error fails the check and leaves the host empty.
   */
  function ParentRun(config: Checks.Config, lookup: (string, string) -> Result<string>, ingressName: string): (o: ParentOutcome)
    ensures config.useInsecureHost != "" ==> o == ParentOutcome(Checks.RunResult(true, None), config.useInsecureHost)
    ensures config.useInsecureHost == "" ==>
      (o.result.success <==> lookup("default", ingressName).Ok?) &&
      (lookup("default", ingressName).Ok? ==> o.host == lookup("default", ingressName).value) &&
      (lookup("default", ingressName).Err? ==> o.result.err == Some(lookup("default", ingressName).error))
  {
    if config.useInsecureHost != "" then ParentOutcome(Checks.RunResult(true, None), config.useInsecureHost)
    else
      match lookup("default", ingressName)
      case Err(e) => ParentOutcome(Checks.RunResult(false, Some(e)), "")
      case Ok(h) => ParentOutcome(Checks.RunResult(true, None), h)
  }

  /** A configured insecure host means the lookup is never consulted. */
  lemma ParentSkipsLookup(config: Checks.Config, l1: (string, string) -> Result<string>,
                          l2: (string, string) -> Result<string>, ingressName: string)
    requires config.useInsecureHost != ""
    ensures ParentRun(config, l1, ingressName) == ParentRun(config, l2, ingressName)
  {
  }

  /** A leaf as a node of the check tree: it has a `Run`, a description and no API versions. */
  function LeafCheck(leaf: Leaf): Checks.Check
  {
    Checks.Check(leaf.id, leaf.name, leaf.description, [], true, None, [], None)
  }

  lemma LeafCheckIncompatible(leaf: Leaf, version: string)
    ensures Checks.NoneCompatible(LeafCheck(leaf), version)
  {
  }
}
