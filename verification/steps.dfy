/**
 * The Gherkin step implementations of internal/pkg/suite/steps.go: the step
 * that settles the Ingress endpoint, the step that sends a request to it, the
 * field-equality steps on the last captured round trip, and the two
 * key/value header-table steps.
 */
module Steps {
  import opened Wrappers
  import opened Format
  import opened Assert
  import opened Capture

  /** The suite's package-level state: the Ingress endpoint and the last captured round trip. */
  datatype State = State(ingressEndpoint: string, roundTrip: Option<RoundTrip>)

  /** `iHaveAnIngressNamedInTheNamespace`: the endpoint changes only when the lookup succeeds. */
  function HaveIngress(st: State, lookup: (string, string) -> Result<string>, ingressName: string, namespace: string): (r: (State, Outcome))
    ensures lookup(namespace, ingressName).Err? ==> r == (st, Fail(lookup(namespace, ingressName).error))
    ensures lookup(namespace, ingressName).Ok? ==>
      r == (st.(ingressEndpoint := lookup(namespace, ingressName).value), Pass)
  {
    match lookup(namespace, ingressName)
    case Err(e) => (st, Fail(e))
    case Ok(host) => (st.(ingressEndpoint := host), Pass)
  }

  /** A parsed request URL: its scheme, its host (with port) and everything after the host. */
  datatype Url = Url(scheme: string, host: string, rest: string)

  /** `URL.String()` for an absolute URL. */
  function UrlString(u: Url): string
  {
    u.scheme + "://" + u.host + u.rest
  }

  /**
   * The network as `iSendARequest` sees it: request method, location and
   * Host header; request construction, connection, the timeout and the TLS
   * hostname check surface as `Err`. Redirects are not followed: a 3xx
   * comes back as the response itself.
   */
  type MethodTransport = (string, string, Option<string>) -> Result<RawResponse>

  const UndefinedEndpoint: string := "undefined ingress host location"

  /** The transport a given method fixes, in the shape `CaptureRoundTrip` expects. */
  function WithMethod(transport: MethodTransport, httpMethod: string): Transport
  {
    (location: string, host: Option<string>) => transport(httpMethod, location, host)
  }

  /**
   * `iSendARequest`: the URL's host is swapped for the endpoint while the
   * Host header keeps the URL's own host; the state changes only when a
   * round trip is captured.
   */
  function SendARequest(st: State, httpMethod: string, requestUrl: string,
                        parse: string -> Result<Url>, transport: MethodTransport): (r: (State, Outcome))
    ensures st.ingressEndpoint == "" ==> r == (st, Fail(UndefinedEndpoint))
    ensures r.1.Fail? ==> r.0 == st
    ensures r.1.Pass? ==>
      st.ingressEndpoint != "" && parse(requestUrl).Ok? &&
      var u := parse(requestUrl).value;
      var c := CaptureRoundTrip(WithMethod(transport, httpMethod), UrlString(u.(host := st.ingressEndpoint)), u.host);
      c.Ok? && r.0 == st.(roundTrip := Some(c.value))
    ensures st.ingressEndpoint != "" && parse(requestUrl).Err? ==> r == (st, Fail(parse(requestUrl).error))
    ensures st.ingressEndpoint != "" && parse(requestUrl).Ok? ==>
      var u := parse(requestUrl).value;
      var c := CaptureRoundTrip(WithMethod(transport, httpMethod), UrlString(u.(host := st.ingressEndpoint)), u.host);
      (c.Err? ==> r == (st, Fail(c.error))) && (c.Ok? ==> r.1 == Pass)
  {
    if st.ingressEndpoint == "" then (st, Fail(UndefinedEndpoint))
    else
      match parse(requestUrl)
      case Err(e) => (st, Fail(e))
      case Ok(u) =>
        match CaptureRoundTrip(WithMethod(transport, httpMethod), UrlString(u.(host := st.ingressEndpoint)), u.host)
        case Err(e) => (st, Fail(e))
        case Ok(rt) => (st.(roundTrip := Some(rt)), Pass)
  }

  /**
   * The request goes to the endpoint whatever host the URL names: two URLs
   * that differ only in their host reach the same location.
   */
  lemma SendTargetsEndpoint(endpoint: string, u1: Url, u2: Url)
    requires u1.scheme == u2.scheme && u1.rest == u2.rest
    ensures UrlString(u1.(host := endpoint)) == UrlString(u2.(host := endpoint))
  {
  }

  // ---------------------------------------------------------------------------
  // Field-equality steps

  /** The captured field an equality step compares. */
  datatype Field = StatusCode | ResponseProto | ServedBy | RequestHost | RequestMethod | RequestPath | RequestProto

  function FieldValue(f: Field, rt: RoundTrip): Value
  {
    match f
    case StatusCode => Int(rt.response.statusCode)
    case ResponseProto => Str(rt.response.proto)
    case ServedBy => Str(rt.request.downstreamServiceId)
    case RequestHost => Str(rt.request.host)
    case RequestMethod => Str(rt.request.httpMethod)
    case RequestPath => Str(rt.request.path)
    case RequestProto => Str(rt.request.proto)
  }

  function FieldTemplate(f: Field): string
  {
    match f
    case StatusCode => "expected the status code to be %v but was %v"
    case ResponseProto => "expected the response protocol to be %v but was %v"
    case ServedBy => "expected the responding service would be %v but was %v"
    case RequestHost => "expected the request host would be %v but was %v"
    case RequestMethod => "expected the request method would be %v but was %v"
    case RequestPath => "expected the request path would be %v but was %v"
    case RequestProto => "expected the request protocol would be %v but was %v"
  }

  /** An equality step: an error, naming expected then actual, iff the captured field differs. */
  function FieldMustBe(f: Field, expected: Value, rt: RoundTrip): (r: Outcome)
    ensures r.Pass? <==> FieldValue(f, rt) == expected
    ensures r.Fail? ==> r.error == Sprintf(FieldTemplate(f), [expected, FieldValue(f, rt)])
  {
    if FieldValue(f, rt) != expected then Fail(Sprintf(FieldTemplate(f), [expected, FieldValue(f, rt)]))
    else Pass
  }

  // ---------------------------------------------------------------------------
  // Header tables

  /** Which captured header map a table step reads. */
  datatype Side = RequestSide | ResponseSide

  function SideName(side: Side): string
  {
    match side
    case RequestSide => "request"
    case ResponseSide => "response"
  }

  function SideHeaders(side: Side, rt: RoundTrip): Headers
  {
    match side
    case RequestSide => rt.request.headers
    case ResponseSide => rt.response.headers
  }

  /** A table row: its cells' values. */
  type Row = seq<string>

  const TooFewRows: string := "expected a table with at least one <key>|<value> row"

  /** A data row holds: its key is present, and its value is "*" or one of that header's values. */
  predicate RowHolds(row: Row, headers: Headers)
    requires |row| >= 2
  {
    row[0] in headers && (row[1] == "*" || row[1] in headers[row[0]])
  }

  /** The error for a data row that does not hold. */
  function RowError(side: Side, row: Row, headers: Headers): string
    requires |row| >= 2
  {
    if row[0] !in headers then
      Sprintf("expected the " + SideName(side) + " headers to contain %v", [Str(row[0])])
    else
      Sprintf("expected the " + SideName(side) + " headers to contain %v; with a value of %s but was %v",
              [Str(row[0]), Str(row[1]), StrList(headers[row[0]])])
  }

  /**
   * How a step ends: it returns an outcome, or it panics (an index past the
   * row's cells, or a nil round trip dereferenced).
   */
  datatype StepResult = Returned(outcome: Outcome) | Panicked

  /** A data row reads two cells, finds a captured round trip, and holds on its headers. */
  predicate RowPasses(side: Side, row: Row, roundTrip: Option<RoundTrip>)
  {
    |row| >= 2 && roundTrip.Some? && RowHolds(row, SideHeaders(side, roundTrip.value))
  }

  /**
   * The header-table step on one side: at least one row is required and row
   * 0 is skipped. Each data row's two cells are read before the round trip
   * is, so a row with fewer than two cells, or a missing round trip, panics;
   * otherwise the first data row that does not hold ends the step with its
   * error.
   */
  method HeadersMustContain(side: Side, rows: seq<Row>, roundTrip: Option<RoundTrip>) returns (r: StepResult)
    ensures |rows| < 1 ==> r == Returned(Fail(TooFewRows))
    ensures r == Returned(Pass) <==> |rows| >= 1 && forall i :: 1 <= i < |rows| ==> RowPasses(side, rows[i], roundTrip)
    ensures r.Panicked? ==>
      exists j :: 1 <= j < |rows| && (|rows[j]| < 2 || roundTrip.None?) &&
        forall i :: 1 <= i < j ==> RowPasses(side, rows[i], roundTrip)
    ensures r.Returned? && r.outcome.Fail? && |rows| >= 1 ==>
      roundTrip.Some? &&
      exists j :: 1 <= j < |rows| && |rows[j]| >= 2 && !RowHolds(rows[j], SideHeaders(side, roundTrip.value)) &&
        (forall i :: 1 <= i < j ==> RowPasses(side, rows[i], roundTrip)) &&
        r.outcome.error == RowError(side, rows[j], SideHeaders(side, roundTrip.value))
  {
    if |rows| < 1 {
      return Returned(Fail(TooFewRows));
    }
    var index := 1;
    while index < |rows|
      invariant 1 <= index <= |rows|
      invariant forall i :: 1 <= i < index ==> RowPasses(side, rows[i], roundTrip)
    {
      if |rows[index]| < 2 {
        return Panicked;
      }
      var key := rows[index][0];
      var value := rows[index][1];
      if roundTrip.None? {
        return Panicked;
      }
      var headers := SideHeaders(side, roundTrip.value);
      if key !in headers {
        return Returned(Fail(RowError(side, rows[index], headers)));
      }
      if value != "*" {
        var found := Contains(headers[key], value);
        if !found {
          return Returned(Fail(RowError(side, rows[index], headers)));
        }
      }
      index := index + 1;
    }
    return Returned(Pass);
  }

  /** The inner loop over a header's values: whether `value` is one of them. */
  method Contains(values: seq<string>, value: string) returns (found: bool)
    ensures found <==> value in values
  {
    found := false;
    for k := 0 to |values|
      invariant found <==> value in values[..k]
    {
      if values[k] == value {
        found := true;
      }
    }
  }

  /** A data row's verdict depends on nothing but its own key's values. */
  lemma RowHoldsLocal(row: Row, h1: Headers, h2: Headers)
    requires |row| >= 2
    requires (row[0] in h1 <==> row[0] in h2)
    requires row[0] in h1 ==> h1[row[0]] == h2[row[0]]
    ensures RowHolds(row, h1) <==> RowHolds(row, h2)
  {
  }

  /** The wildcard accepts any value of a present header, and nothing when the header is absent. */
  lemma WildcardNeedsOnlyTheKey(key: string, headers: Headers)
    ensures RowHolds([key, "*"], headers) <==> key in headers
  {
  }
}
