/**
 * The captured round trip of internal/pkg/checks/check.go: what the echo
 * server reflected back about the request it received, the response metadata,
 * and `CaptureRoundTrip`, with the network abstracted as a transport oracle.
 */
module Capture {
  import opened Wrappers
  import opened Format
  import opened Assert

  /** The JSON-decoded echo body (`testId` is the downstream service id). */
  datatype CapturedRequest = CapturedRequest(
    downstreamServiceId: string,
    path: string,
    host: string,
    httpMethod: string,
    proto: string,
    headers: Headers)

  datatype CapturedResponse = CapturedResponse(
    statusCode: int,
    contentLength: int,
    proto: string,
    headers: Headers)

  datatype RoundTrip = RoundTrip(request: CapturedRequest, response: CapturedResponse)

  /**
   * What one GET returns once the connection succeeded: status, length,
   * protocol, headers, the unread body, and the body's JSON decoding when it
   * decodes.
   */
  datatype RawResponse = RawResponse(
    statusCode: int,
    contentLength: int,
    proto: string,
    headers: Headers,
    body: string,
    decoded: Option<CapturedRequest>)

  /**
   * One GET of a location with an optional Host header. Request construction,
   * connection, the 3-second timeout and the TLS certificate hostname check
   * all surface as `Err`.
   */
  type Transport = (string, Option<string>) -> Result<RawResponse>

  /** The Host header sent: the override when one is given. */
  function HostHeader(hostOverride: string): (h: Option<string>)
    ensures h.Some? <==> hostOverride != ""
    ensures h.Some? ==> h.value == hostOverride
  {
    if hostOverride != "" then Some(hostOverride) else None
  }

  const UnexpectedResponseTemplate: string := "unexpected response (statuscode: %d, length: %d): %s"

  /** The error for a body that is not an echo-server reflection. */
  function UnexpectedResponse(raw: RawResponse): string
  {
    Sprintf(UnexpectedResponseTemplate, [Int(raw.statusCode), Int(|raw.body|), Str(raw.body)])
  }

  /** `CaptureRoundTrip(location, hostOverride)`. */
  function CaptureRoundTrip(transport: Transport, location: string, hostOverride: string): (r: Result<RoundTrip>)
    ensures transport(location, HostHeader(hostOverride)).Err? ==>
      r == Err(transport(location, HostHeader(hostOverride)).error)
    ensures r.Ok? <==>
      transport(location, HostHeader(hostOverride)).Ok? && transport(location, HostHeader(hostOverride)).value.decoded.Some?
    ensures r.Ok? ==>
      var raw := transport(location, HostHeader(hostOverride)).value;
      r.value.request == raw.decoded.value &&
      r.value.response == CapturedResponse(raw.statusCode, raw.contentLength, raw.proto, raw.headers)
    ensures transport(location, HostHeader(hostOverride)).Ok? &&
            transport(location, HostHeader(hostOverride)).value.decoded.None? ==>
      r == Err(UnexpectedResponse(transport(location, HostHeader(hostOverride)).value))
  {
    match transport(location, HostHeader(hostOverride))
    case Err(e) => Err(e)
    case Ok(raw) =>
      match raw.decoded
      case None => Err(UnexpectedResponse(raw))
      case Some(req) =>
        Ok(RoundTrip(req, CapturedResponse(raw.statusCode, raw.contentLength, raw.proto, raw.headers)))
  }
}
