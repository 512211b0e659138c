/**
 * The default-backend check of internal/pkg/suite/defaultBackendCheck.go: a
 * declarative `Request` against the Ingress "default-backend" over plain HTTP,
 * whose `DoCheck` asserts on the echoed request and on the response.
 */
module DefaultBackend {
  import opened Wrappers
  import opened Format
  import opened Assert
  import opened Capture
  import Checks

  const Name: string := "default-backend"
  const Description: string := "Ingress with a single default backend should send traffic to the correct backend service"

  const ServiceTemplate: string := "expected the downstream service would be '%s' but was '%s'"
  const MethodTemplate: string := "expected the originating request method would be '%s' but was '%s'"
  const RequestProtoTemplate: string := "expected the originating request protocol would be '%s' but was '%s'"
  const StatusTemplate: string := "expected statuscode to be %s but was %s"
  const ResponseProtoTemplate: string := "expected the response protocol would be %s but was %s"

  /** The response header keys the echo server is expected to send, and no others. */
  function ResponseHeaderKeys(): seq<string>
  {
    ["Content-Length", "Content-Type", "Date", "Server"]
  }

  /** The first four assertions of `DoCheck`, on the echoed request, on a fresh set. */
  function RequestFailures(req: CapturedRequest): AssertionSet
  {
    var a0 := DeepEquals([], Str(req.downstreamServiceId), Str(Name), ServiceTemplate);
    var a1 := DeepEquals(a0, Str(req.httpMethod), Str("GET"), MethodTemplate);
    var a2 := DeepEquals(a1, Str(req.proto), Str("HTTP/1.1"), RequestProtoTemplate);
    ContainsHeaders(a2, req.headers, ["User-Agent"])
  }

  /** The last three assertions of `DoCheck`, on the response, appended to `a`. */
  function ResponseFailures(a: AssertionSet, res: CapturedResponse): AssertionSet
  {
    var a4 := DeepEquals(a, Int(res.statusCode), Int(200), StatusTemplate);
    var a5 := DeepEquals(a4, Str(res.proto), Str("HTTP/1.1"), ResponseProtoTemplate);
    ContainsExactHeaders(a5, res.headers, ResponseHeaderKeys())
  }

  /** The seven assertions of `DoCheck`, in source order, on a fresh set. */
  function Failures(req: CapturedRequest, res: CapturedResponse): AssertionSet
  {
    ResponseFailures(RequestFailures(req), res)
  }

  /** `DoCheck`: every failure is error-tier, and no error is ever returned. */
  function DoCheck(req: CapturedRequest, res: CapturedResponse): (d: Checks.DoCheckResult)
    ensures d.err.None? && d.assertions.Some? && d.assertions.value.W == []
  {
    Checks.DoCheckResult(Some(Assertions(Failures(req, res), [])), None)
  }

  /** What the echo server must have seen and answered for the check to pass. */
  predicate Expected(req: CapturedRequest, res: CapturedResponse)
  {
    req.downstreamServiceId == Name && req.httpMethod == "GET" && req.proto == "HTTP/1.1" &&
    "User-Agent" in req.headers &&
    res.statusCode == 200 && res.proto == "HTTP/1.1" &&
    res.headers.Keys == {"Content-Length", "Content-Type", "Date", "Server"}
  }

  lemma ResponseHeaderKeysDistinct()
    ensures NoDuplicates(ResponseHeaderKeys())
    ensures ToSet(ResponseHeaderKeys()) == {"Content-Length", "Content-Type", "Date", "Server"}
  {
  }

  /**
   * `DoCheck` records no failure exactly when the request came to the
   * default backend as an HTTP/1.1 GET with a User-Agent, and the response
   * is a 200 over HTTP/1.1 carrying exactly the four expected headers.
   */
  lemma DoCheckPasses(req: CapturedRequest, res: CapturedResponse)
    ensures Passed(DoCheck(req, res).assertions.value) <==> Expected(req, res)
  {
    assert Passed(DoCheck(req, res).assertions.value) <==> ResponseFailures(RequestFailures(req), res) == [];
    RequestFailuresEmpty(req);
    ResponseFailuresEmpty(RequestFailures(req), res);
  }

  lemma RequestFailuresEmpty(req: CapturedRequest)
    ensures RequestFailures(req) == [] <==>
      req.downstreamServiceId == Name && req.httpMethod == "GET" && req.proto == "HTTP/1.1" && "User-Agent" in req.headers
  {
    var a0 := DeepEquals([], Str(req.downstreamServiceId), Str(Name), ServiceTemplate);
    var a1 := DeepEquals(a0, Str(req.httpMethod), Str("GET"), MethodTemplate);
    var a2 := DeepEquals(a1, Str(req.proto), Str("HTTP/1.1"), RequestProtoTemplate);
    DeepEqualsEmpty([], Str(req.downstreamServiceId), Str(Name), ServiceTemplate);
    DeepEqualsEmpty(a0, Str(req.httpMethod), Str("GET"), MethodTemplate);
    DeepEqualsEmpty(a1, Str(req.proto), Str("HTTP/1.1"), RequestProtoTemplate);
    UserAgentStep(a2, req.headers);
  }

  lemma ResponseFailuresEmpty(a: AssertionSet, res: CapturedResponse)
    ensures ResponseFailures(a, res) == [] <==>
      a == [] && res.statusCode == 200 && res.proto == "HTTP/1.1" &&
      res.headers.Keys == {"Content-Length", "Content-Type", "Date", "Server"}
  {
    var a4 := DeepEquals(a, Int(res.statusCode), Int(200), StatusTemplate);
    var a5 := DeepEquals(a4, Str(res.proto), Str("HTTP/1.1"), ResponseProtoTemplate);
    DeepEqualsEmpty(a, Int(res.statusCode), Int(200), StatusTemplate);
    DeepEqualsEmpty(a4, Str(res.proto), Str("HTTP/1.1"), ResponseProtoTemplate);
    ResponseHeadersStep(a5, res.headers);
  }

  lemma UserAgentStep(a: AssertionSet, headers: Headers)
    ensures ContainsHeaders(a, headers, ["User-Agent"]) == [] <==> a == [] && "User-Agent" in headers
  {
    ContainsHeadersPasses(a, headers, ["User-Agent"]);
    StepEmpty(a, ContainsHeaders(a, headers, ["User-Agent"]));
  }

  lemma ResponseHeadersStep(a: AssertionSet, headers: Headers)
    ensures ContainsExactHeaders(a, headers, ResponseHeaderKeys()) == [] <==>
      a == [] && headers.Keys == {"Content-Length", "Content-Type", "Date", "Server"}
  {
    var keys := ResponseHeaderKeys();
    var r := ContainsExactHeaders(a, headers, keys);
    ResponseHeaderKeysDistinct();
    ExactHeadersIsKeySetEquality(a, headers, keys);
    ExactHeadersExtends(a, headers, keys);
    StepEmpty(a, r);
  }

  /** The declarative request: the "default-backend" Ingress, plain HTTP, empty path, no Host override. */
  function Request(): Checks.Request
  {
    Checks.Request("", Name, "", "", true, DoCheck)
  }

  /** The check as registered: a `RunRequest`, no `Run`, and no API versions. */
  function Check(): Checks.Check
  {
    Checks.Check(1, Name, Description, [], false, Some(Request()), [], None)
  }

  /**
   * The compiled run passes exactly when the host resolves (the configured
   * insecure host, else the "default-backend" Ingress in "default"), the GET
   * of `http://<host>` with no Host override is captured, and the echo
   * matches `Expected`.
   */
  lemma RunPasses(config: Checks.Config, env: Checks.Env)
    ensures Checks.RunRequest(Request(), config, env).success <==>
      var host := if config.useInsecureHost != "" then Ok(config.useInsecureHost)
                  else env.lookup("default", Name);
      host.Ok? &&
      var rt := CaptureRoundTrip(env.transport, "http://" + host.value, "");
      rt.Ok? && Expected(rt.value.request, rt.value.response)
  {
    var host := if config.useInsecureHost != "" then Ok(config.useInsecureHost) else env.lookup("default", Name);
    RequestTargets(config, env.lookup);
    Checks.RunRequestSucceeds(Request(), config, env);
    if host.Ok? {
      var rt := CaptureRoundTrip(env.transport, "http://" + host.value, "");
      if rt.Ok? {
        DoCheckPasses(rt.value.request, rt.value.response);
      }
    }
  }

  /** The request resolves its host like a plain-HTTP request in "default", goes to `http://<host>`, and runs `DoCheck`. */
  lemma RequestTargets(config: Checks.Config, lookup: (string, string) -> Result<string>)
    ensures Checks.ResolveHost(Request(), config, lookup) ==
      if config.useInsecureHost != "" then Ok(config.useInsecureHost) else lookup("default", Name)
    ensures forall h :: Checks.Scheme(Request()) + "://" + h + Request().path == "http://" + h
    ensures Request().doCheck == DoCheck
  {
    forall h
      ensures Checks.Scheme(Request()) + "://" + h + Request().path == "http://" + h
    {
      assert Request().path == "";
    }
  }


  /** Declaring no API version, the check never runs under `Verify`. */
  lemma NeverRuns(filter: string, config: Checks.Config, env: Checks.Env)
    ensures Checks.Verify(Check(), filter, config, env) == Checks.Counts(0, 0, [])
  {
    Checks.IncompatibleTreeRunsNothing(Check(), filter, config, env);
  }
}
