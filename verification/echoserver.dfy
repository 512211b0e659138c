/**
 * The two echo servers the checks talk to: images/echoserver/echoserver.go,
 * which reflects each request as JSON together with its Kubernetes context
 * and answers "/health", and tools/echoserver.go, which reflects each request
 * together with its TEST_ID. Both collapse "//" in the URL path before
 * routing.
 */
module EchoServer {
  import opened Wrappers
  import opened Text
  import opened Assert

  /** `preserveSlashes`: every non-overlapping "//" of the URL path becomes "/", in one left-to-right pass. */
  function PreserveSlashes(path: string): string
  {
    ReplaceAll(path, "//", "/")
  }

  /** A path without "//" is left alone. */
  lemma PreserveSlashesNoDouble(path: string)
    requires forall j :: 0 <= j <= |path| ==> !OccursAt(path, "//", j)
    ensures PreserveSlashes(path) == path
  {
    ReplaceAllNoOccurrence(path, "//", "/");
  }

  /** Each collapsed pair shortens the path by one character. */
  lemma PreserveSlashesLength(path: string)
    ensures |PreserveSlashes(path)| == |path| - CountReplaced(path, "//")
    ensures |PreserveSlashes(path)| <= |path|
  {
    ReplaceAllLength(path, "//", "/");
  }

  /** One pass is not a fixpoint: "///" becomes "//", which a second pass would turn into "/". */
  lemma PreserveSlashesNotIdempotent()
    ensures PreserveSlashes("///") == "//"
    ensures PreserveSlashes(PreserveSlashes("///")) == "/"
  {
    assert HasPrefix("///", "//");
    assert "///"[2..] == "/";
    assert !HasPrefix("/", "//");
    assert HasPrefix("//", "//");
    assert "//"[2..] == "";
  }

  /** The parts of an incoming request the echo server reads. */
  datatype Request = Request(
    requestUri: string,
    urlPath: string,
    host: string,
    httpMethod: string,
    proto: string,
    headers: Headers)

  /** The server's Kubernetes context, read once from NAMESPACE, INGRESS_NAME and SERVICE_NAME. */
  datatype Context = Context(namespace: string, ingress: string, service: string)

  /** The echoed record, in field order. */
  datatype RequestAssertions = RequestAssertions(
    path: string,
    host: string,
    httpMethod: string,
    proto: string,
    headers: Headers,
    context: Context)

  datatype Response = Response(statusCode: int, headers: map<string, string>, body: Option<RequestAssertions>, text: string)

  const DefaultPort: string := "3000"

  /** `os.Getenv` reads an unset variable as "". */
  function Getenv(env: map<string, string>, key: string): string
  {
    if key in env then env[key] else ""
  }

  /** The listening port: PORT, or "3000" when PORT is unset or empty. */
  function Port(env: map<string, string>): (p: string)
    ensures p != ""
    ensures Getenv(env, "PORT") != "" ==> p == env["PORT"]
    ensures Getenv(env, "PORT") == "" ==> p == DefaultPort
  {
    var port := Getenv(env, "PORT");
    if port == "" then DefaultPort else port
  }

  function ContextOf(env: map<string, string>): Context
  {
    Context(Getenv(env, "NAMESPACE"), Getenv(env, "INGRESS_NAME"), Getenv(env, "SERVICE_NAME"))
  }

  function EchoHeaders(): map<string, string>
  {
    map["Content-Type" := "application/json", "X-Content-Type-Options" := "nosniff"]
  }

  /**
   * A request through `preserveSlashes` and the mux: "/health" after the
   * rewrite gets 200 "OK"; anything else is echoed, with the path taken from
   * the request URI as sent rather than from the rewritten URL path.
   */
  function Serve(req: Request, context: Context): (r: Response)
    ensures PreserveSlashes(req.urlPath) == "/health" ==> r == Response(200, map[], None, "OK")
    ensures PreserveSlashes(req.urlPath) != "/health" ==>
      r.statusCode == 200 && r.headers == EchoHeaders() &&
      r.body == Some(RequestAssertions(req.requestUri, req.host, req.httpMethod, req.proto, req.headers, context))
  {
    var rewritten := req.(urlPath := PreserveSlashes(req.urlPath));
    if rewritten.urlPath == "/health" then Response(200, map[], None, "OK")
    else Response(200, EchoHeaders(), Some(RequestAssertions(rewritten.requestUri, rewritten.host, rewritten.httpMethod,
                                                            rewritten.proto, rewritten.headers, context)), "")
  }

  /** The echoed path is unaffected by the slash rewrite: two requests differing only in URL path echo alike. */
  lemma EchoedPathIgnoresRewrite(req: Request, urlPath: string, context: Context)
    requires PreserveSlashes(req.urlPath) != "/health" && PreserveSlashes(urlPath) != "/health"
    ensures Serve(req, context).body == Serve(req.(urlPath := urlPath), context).body
    ensures Serve(req, context).body.value.path == req.requestUri
  {
  }

  /** "//health" is collapsed before routing, so it is answered as a health check. */
  lemma DoubleSlashHealth(req: Request, context: Context)
    requires req.urlPath == "//health"
    ensures Serve(req, context).text == "OK"
  {
    CollapseDoubleSlashHealth();
  }

  lemma CollapseDoubleSlashHealth()
    ensures PreserveSlashes("//health") == "/health"
  {
    var rest := "health";
    assert "//health" == "//" + rest;
    HasPrefixOfConcat("//", rest);
    assert ("//" + rest)[2..] == rest;
    assert forall i :: 0 <= i < |rest| ==> rest[i] != '/';
    SlashFreeUnchanged(rest);
  }

  /** A path with no '/' at all passes through the rewrite unchanged. */
  lemma {:induction false} SlashFreeUnchanged(path: string)
    requires forall i :: 0 <= i < |path| ==> path[i] != '/'
    ensures PreserveSlashes(path) == path
  {
    if |path| > 0 {
      assert !HasPrefix(path, "//");
      SlashFreeUnchanged(path[1..]);
      assert path == [path[0]] + path[1..];
    }
  }
}

/**
 * tools/echoserver.go: the echo server whose reflection the checks decode,
 * identifying itself by TEST_ID.
 */
module ToolsEchoServer {
  import opened Assert
  import EchoServer
  import Capture

  /** `getEnv`: the variable's value whenever it is set, even to "", and the fallback only when it is unset. */
  function GetEnv(env: map<string, string>, key: string, fallback: string): (r: string)
    ensures key in env ==> r == env[key]
    ensures key !in env ==> r == fallback
  {
    if key in env then env[key] else fallback
  }

  /** The server configuration: PORT (default "3000") and TEST_ID (default ""). */
  datatype Config = Config(port: string, testId: string)

  function ConfigOf(env: map<string, string>): Config
  {
    Config(GetEnv(env, "PORT", "3000"), GetEnv(env, "TEST_ID", ""))
  }

  /** Unlike the image's server, a PORT set to "" is kept as "" rather than replaced by "3000". */
  lemma EmptyPortKept(env: map<string, string>)
    requires "PORT" in env && env["PORT"] == ""
    ensures ConfigOf(env).port == ""
    ensures EchoServer.Port(env) == "3000"
  {
  }

  /** The echoed record, in field order. */
  datatype RequestAssertions = RequestAssertions(
    testId: string,
    path: string,
    host: string,
    httpMethod: string,
    proto: string,
    headers: Headers)

  /** `RequestHandler` after the slash rewrite: every path is echoed, as JSON, with the request URI as the path. */
  function RequestHandler(testId: string, req: EchoServer.Request): (r: (RequestAssertions, map<string, string>))
    ensures r.0.testId == testId && r.0.path == req.requestUri
    ensures r.0.host == req.host && r.0.httpMethod == req.httpMethod && r.0.proto == req.proto && r.0.headers == req.headers
    ensures r.1 == map["Content-Type" := "application/json"]
  {
    var rewritten := req.(urlPath := EchoServer.PreserveSlashes(req.urlPath));
    (RequestAssertions(testId, rewritten.requestUri, rewritten.host, rewritten.httpMethod, rewritten.proto, rewritten.headers),
     map["Content-Type" := "application/json"])
  }

  /**
   * How a check decodes the record: the JSON keys match the check's fields
   * case-insensitively, with TestId landing in the downstream service id.
   */
  function Decoded(a: RequestAssertions): Capture.CapturedRequest
  {
    Capture.CapturedRequest(a.testId, a.path, a.host, a.httpMethod, a.proto, a.headers)
  }

  /**
   * A check that reaches this server sees the server's TEST_ID as the
   * downstream service and the request URI, as sent, as the path.
   */
  lemma CheckSeesTestId(env: map<string, string>, req: EchoServer.Request)
    ensures var c := Decoded(RequestHandler(ConfigOf(env).testId, req).0);
      c.downstreamServiceId == (if "TEST_ID" in env then env["TEST_ID"] else "") &&
      c.path == req.requestUri && c.host == req.host && c.headers == req.headers
  {
  }
}
