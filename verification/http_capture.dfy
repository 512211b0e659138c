/**
 * `CaptureRoundTrip` of test/http/http.go, the request helper of the Gherkin
 * suite: the URL it builds, the Host override, and the captured request and
 * response, with the network (and the TLS handshake) abstracted.
 */
module HttpCapture {
  import opened Wrappers
  import opened Text
  import opened Format
  import opened Assert
  import Capture

  /** The echo server's JSON reflection of the request it received. */
  datatype CapturedRequest = CapturedRequest(
    path: string,
    host: string,
    httpMethod: string,
    proto: string,
    headers: Headers,
    namespace: string,
    ingress: string,
    service: string)

  /** The response metadata, and the hostname the TLS certificate was checked against ("" when none was). */
  datatype CapturedResponse = CapturedResponse(
    statusCode: int,
    contentLength: int,
    proto: string,
    headers: Headers,
    tlsHostname: string)

  /**
   * What one request yields once the client got a response: its metadata,
   * the body the JSON decoder left unread, the decoding when the body is a
   * reflection, and whether the peer-certificate callback ran.
   */
  datatype Exchange = Exchange(
    statusCode: int,
    contentLength: int,
    proto: string,
    headers: Headers,
    unread: string,
    decoded: Option<CapturedRequest>,
    peerVerified: bool)

  /**
   * One request: method, URL, and the Host header when overridden. Request
   * construction, connection, the 3-second timeout, certificate parsing and
   * the hostname check all surface as `Err`; redirects are not followed.
   */
  type Network = (string, string, Option<string>) -> Result<Exchange>

  /** The URL: scheme, location, and the path with at most one leading slash removed, joined by "/". */
  function RequestUrl(scheme: string, location: string, path: string): string
  {
    scheme + "://" + location + "/" + TrimPrefix(path, "/")
  }

  /** A path with or without its leading slash gives the same URL. */
  lemma LeadingSlashOptional(scheme: string, location: string, path: string)
    requires !HasPrefix(path, "/")
    ensures RequestUrl(scheme, location, "/" + path) == RequestUrl(scheme, location, path)
  {
    HasPrefixOfConcat("/", path);
  }

  /** An empty path addresses the root of the location. */
  lemma EmptyPathIsRoot(scheme: string, location: string)
    ensures RequestUrl(scheme, location, "") == scheme + "://" + location + "/"
  {
  }

  /** Only one leading slash is removed: a path starting with "//" keeps a doubled slash. */
  lemma OneSlashTrimmed(scheme: string, location: string, rest: string)
    ensures RequestUrl(scheme, location, "//" + rest) == scheme + "://" + location + "//" + rest
  {
    assert "//" + rest == "/" + ("/" + rest);
    HasPrefixOfConcat("/", "/" + rest);
  }

  function UnexpectedResponse(ex: Exchange): string
  {
    Sprintf("unexpected response (statuscode: %d, length: %d): %s", [Int(ex.statusCode), Int(|ex.unread|), Str(ex.unread)])
  }

  /**
   * `CaptureRoundTrip(method, scheme, hostname, path, location)`: either the
   * network error, the unexpected-response error with nothing captured, or
   * the decoded request with the response metadata.
   */
  function CaptureRoundTrip(httpMethod: string, scheme: string, hostname: string, path: string, location: string,
                            network: Network): (r: Result<(CapturedRequest, CapturedResponse)>)
    ensures var sent := network(httpMethod, RequestUrl(scheme, location, path), Capture.HostHeader(hostname));
      (sent.Err? ==> r == Err(sent.error)) &&
      (r.Ok? <==> sent.Ok? && sent.value.decoded.Some?) &&
      (sent.Ok? && sent.value.decoded.None? ==> r == Err(UnexpectedResponse(sent.value)))
    ensures r.Ok? ==>
      var ex := network(httpMethod, RequestUrl(scheme, location, path), Capture.HostHeader(hostname)).value;
      r.value.0 == ex.decoded.value &&
      r.value.1 == CapturedResponse(ex.statusCode, ex.contentLength, ex.proto, ex.headers, r.value.1.tlsHostname) &&
      r.value.1.tlsHostname == (if ex.peerVerified then hostname else "")
  {
    match network(httpMethod, RequestUrl(scheme, location, path), Capture.HostHeader(hostname))
    case Err(e) => Err(e)
    case Ok(ex) =>
      var tlsHostname := if ex.peerVerified then hostname else "";
      match ex.decoded
      case None => Err(UnexpectedResponse(ex))
      case Some(req) =>
        Ok((req, CapturedResponse(ex.statusCode, ex.contentLength, ex.proto, ex.headers, tlsHostname)))
  }

  /** Whether the caller writes the path with a leading slash or not changes nothing in the capture. */
  lemma CaptureIgnoresLeadingSlash(httpMethod: string, scheme: string, hostname: string, path: string, location: string,
                                   network: Network)
    requires !HasPrefix(path, "/")
    ensures CaptureRoundTrip(httpMethod, scheme, hostname, "/" + path, location, network) ==
            CaptureRoundTrip(httpMethod, scheme, hostname, path, location, network)
  {
    LeadingSlashOptional(scheme, location, path);
  }
}
