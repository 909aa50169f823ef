/**
 * The DNS-over-HTTPS client (RFC 8484): construction-time URL validation,
 * and a `resolve_raw` that sends the query with DNS ID 0 (section 4.1 of
 * RFC 8484) and puts the caller's ID back into the response.
 *
 * The HTTP exchange itself (TLS, redirects, timeouts, HTTP/2) is an oracle
 * supplied by the caller: a function from the request sent to the response
 * received.
 */
module Https {
  import opened Proto
  import opened Outcomes

  /** `CONTENT_TYPE_DNS_MESSAGE`, sent as both `Accept` and `Content-Type`. */
  const CONTENT_TYPE_DNS_MESSAGE: string := "application/dns-message"

  /** The parts of a parsed `reqwest::Url` that the client looks at. */
  datatype Url = Url(scheme: string, host: Option<string>, path: string)

  datatype IpAddr = IpAddr(octets: seq<Byte>)

  /**
   * A constructed client: its fixed destination, and the out-of-band
   * address its hostname resolves to when a bootstrap IP was given
   * (`client_builder.resolve(host, SocketAddr::new(ip, 0))`).
   */
  datatype HttpsClient = HttpsClient(url: Url, bootstrap: Option<(string, IpAddr)>)

  datatype NewError =
    | UnsupportedScheme(scheme: string)  // the scheme is not `https`
    | MissingHost                        // the URL has no host
    | BuildFailed                        // `client_builder.build()` failed

  /**
   * `HttpsClient::new`. The scheme is checked first, then the host;
   * `buildSucceeds` is what the foreign `reqwest` builder reports.
   */
  function New(url: Url, ip: Option<IpAddr>, buildSucceeds: bool): (r: Result<HttpsClient, NewError>)
    ensures r.Ok? <==> url.scheme == "https" && url.host.Some? && buildSucceeds
    ensures url.scheme != "https" ==> r == Err(UnsupportedScheme(url.scheme))
    ensures url.scheme == "https" && url.host.None? ==> r == Err(MissingHost)
    ensures r.Ok? ==> r.value.url == url
    ensures r.Ok? ==> (r.value.bootstrap.Some? <==> ip.Some?)
    ensures r.Ok? && ip.Some? ==> r.value.bootstrap == Some((url.host.value, ip.value))
  {
    if url.scheme != "https" then
      Err(UnsupportedScheme(url.scheme))
    else if url.host.None? then
      Err(MissingHost)
    else if !buildSucceeds then
      Err(BuildFailed)
    else
      var bootstrap := if ip.Some? then Some((url.host.value, ip.value)) else None;
      Ok(HttpsClient(url, bootstrap))
  }

  /** The POST that `resolve_raw` issues. */
  datatype HttpRequest = HttpRequest(
    verb: string, url: Url, accept: string, contentType: string, body: seq<Byte>)

  /** What the HTTP exchange yields. */
  datatype HttpResponse =
    | TransportError                                // `.send().await` failed
    | Response(status: int, body: Option<seq<Byte>>) // `None`: reading the body failed

  /** `StatusCode::is_success`: a 2xx status. */
  predicate IsSuccess(status: int) {
    200 <= status < 300
  }

  datatype ResolveError =
    | SendFailed                     // the request could not be sent
    | NonSuccessStatus(status: int)  // the server answered with a non-2xx status
    | BodyFailed                     // the body could not be read
    | ShortBody                      // the body is shorter than 2 bytes: the TXID copy panics

  /** The body sent upstream: the caller's query with DNS ID 0. */
  function QueryBody(query: seq<Byte>): (body: seq<Byte>)
    requires |query| >= 2
    ensures |body| == |query| && TxidFromBinaryMessage(body) == 0
    ensures body[0] == 0 && body[1] == 0 && body[2..] == query[2..]
  {
    ReadAfterWrite(query, 0);
    WithTxid(query, 0)
  }

  /** The request built by `self.client.post(self.url.clone())...`. */
  function PostRequest(client: HttpsClient, body: seq<Byte>): (req: HttpRequest)
    ensures req.verb == "POST" && req.url == client.url && req.body == body
    ensures req.accept == CONTENT_TYPE_DNS_MESSAGE && req.contentType == CONTENT_TYPE_DNS_MESSAGE
  {
    HttpRequest("POST", client.url, CONTENT_TYPE_DNS_MESSAGE, CONTENT_TYPE_DNS_MESSAGE, body)
  }

  /**
   * What `resolve_raw` makes of the HTTP response, given the TXID it read
   * from the caller's query: the status is checked before the body is read,
   * and a successful body gets the caller's TXID back.
   */
  function ResponseFor(txid: Txid, response: HttpResponse): (r: Result<seq<Byte>, ResolveError>)
    ensures response.TransportError? ==> r == Err(SendFailed)
    ensures response.Response? && !IsSuccess(response.status) ==> r == Err(NonSuccessStatus(response.status))
    ensures response.Response? && IsSuccess(response.status) && response.body.None? ==> r == Err(BodyFailed)
    ensures r.Ok? <==> response.Response? && IsSuccess(response.status)
                       && response.body.Some? && |response.body.value| >= 2
    ensures r.Ok? ==>
      && |r.value| == |response.body.value|
      && TxidFromBinaryMessage(r.value) == txid
      && r.value[2..] == response.body.value[2..]
  {
    match response
    case TransportError => Err(SendFailed)
    case Response(status, body) =>
      if !IsSuccess(status) then Err(NonSuccessStatus(status))
      else if body.None? then Err(BodyFailed)
      else if |body.value| < 2 then Err(ShortBody)
      else
        ReadAfterWrite(body.value, txid);
        Ok(WithTxid(body.value, txid))
  }

  /**
   * `resolve_raw`. The query buffer is owned by the call: it is zeroed in
   * place at bytes 0 and 1, posted through `exchange`, and the response
   * body is copied into a fresh buffer whose TXID is overwritten in place.
   * A query shorter than 2 bytes panics at the TXID read; the resolver,
   * the only caller, has already read the TXID of the same bytes.
   */
  method ResolveRaw(client: HttpsClient, query: seq<Byte>, exchange: HttpRequest -> HttpResponse)
      returns (r: Result<seq<Byte>, ResolveError>)
    requires |query| >= 2
    ensures r == ResponseFor(TxidFromBinaryMessage(query), exchange(PostRequest(client, QueryBody(query))))
  {
    var data := new Byte[|query|](i requires 0 <= i < |query| => query[i]);
    assert data[..] == query;
    var txid := TxidFromBinaryMessage(data[..]);
    data[0] := 0;
    data[1] := 0;
    assert data[..] == QueryBody(query);
    var response := exchange(PostRequest(client, data[..]));
    if response.TransportError? {
      return Err(SendFailed);
    }
    if !IsSuccess(response.status) {
      return Err(NonSuccessStatus(response.status));
    }
    if response.body.None? {
      return Err(BodyFailed);
    }
    var body := response.body.value;
    if |body| < 2 {
      return Err(ShortBody);
    }
    var buffer := new Byte[|body|](i requires 0 <= i < |body| => body[i]);
    assert buffer[..] == body;
    WriteTxid(buffer, txid);
    r := Ok(buffer[..]);
  }
}
