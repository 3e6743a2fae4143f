/** The client library (pkg/pdfrasterizerclient/client.go): construction
    from a token provider, and the request that `Rasterize` hands to the
    `ezhttp` transport. The transport itself is a parameter. */
module RasterizerClient {
  import opened Wrappers
  import opened Errors
  import Http
  import Fifo
  import Planning

  const Function61 := "https://function61.com/api/pdfrasterizer"
  const Localhost := "http://localhost"
  const TokenEnvVar := "PDFRASTERIZER_TOKEN"
  const GetTokenPrefix := "getToken: "
  const TransportPrefix := "PDF rasterizer: "

  /** The wording of `envvar.Required`'s error for an unset variable. */
  const EnvNotDefined := "ENV not defined: "

  /** `TokenFn`: a provider of the bearer token, which may fail. */
  type TokenFn = () -> Result<string, Error>

  /** `TokenFromEnv`, given the result of looking up `PDFRASTERIZER_TOKEN` in
      the environment (`None` when it is not set). */
  function TokenFromEnv(lookup: Option<string>): (r: Result<string, Error>)
    ensures r.Failure? <==> lookup.None?
    ensures lookup.Some? ==> r == Success(lookup.value)
    ensures r.Failure? ==> Text(r.error) == EnvNotDefined + TokenEnvVar
  {
    match lookup
    case None => Failure(Message(EnvNotDefined + TokenEnvVar))
    case Some(token) => Success(token)
  }

  /** `NoToken`: no authentication, an empty token that never fails. */
  function NoToken(): (r: Result<string, Error>)
    ensures r.Success? && r.value == ""
  {
    Success("")
  }

  datatype Client = Client(baseUrl: string, bearerToken: string)

  /** `New`: asks the provider for a token once. A failure is returned
      wrapped behind "getToken: " and no client is made; otherwise the
      client holds exactly the base URL and the token. */
  function New(baseUrl: string, getToken: TokenFn): (r: Result<Client, Error>)
    ensures r.Failure? <==> getToken().Failure?
    ensures r.Failure? ==> Unwrap(r.error) == Some(getToken().error)
                           && Text(r.error) == GetTokenPrefix + Text(getToken().error)
    ensures r.Success? ==> r.value.baseUrl == baseUrl && r.value.bearerToken == getToken().value
  {
    match getToken()
    case Failure(err) => Failure(Wrapped(GetTokenPrefix, err))
    case Success(bearerToken) => Success(Client(baseUrl, bearerToken))
  }

  /** With no token, construction always succeeds and the client sends an
      empty bearer token. */
  lemma NewWithNoToken(baseUrl: string)
    ensures New(baseUrl, NoToken) == Success(Client(baseUrl, ""))
  {
  }

  /** With the token taken from the environment, construction fails exactly
      when the variable is unset, before any request could be made. */
  lemma NewFromEnv(baseUrl: string, lookup: Option<string>)
    ensures New(baseUrl, () => TokenFromEnv(lookup)).Failure? <==> lookup.None?
    ensures lookup.None? ==>
              Text(New(baseUrl, () => TokenFromEnv(lookup)).error) == GetTokenPrefix + EnvNotDefined + TokenEnvVar
    ensures lookup.Some? ==> New(baseUrl, () => TokenFromEnv(lookup)) == Success(Client(baseUrl, lookup.value))
  {
  }

  /** What `ezhttp.Post` is asked to send. */
  datatype Request = Request(
    httpMethod: string,
    url: string,
    bearerToken: string,               // ezhttp.AuthBearer
    headers: seq<(string, string)>,    // ezhttp.Header, in order
    body: seq<Http.byte>,              // ezhttp.SendBody's reader
    bodyContentType: string)           // ezhttp.SendBody's content type

  /** The request `Rasterize` describes for a document: a POST to the
      handler's route under the base URL, with the client's token, asking for
      JPEG and sending the document unchanged as a PDF. */
  function RasterizeRequest(c: Client, pdf: seq<Http.byte>): (req: Request)
    ensures req.httpMethod == "POST" && req.url == c.baseUrl + Planning.RasterizeRoute
    ensures req.bearerToken == c.bearerToken
    ensures req.headers == [("Accept", Planning.ImageJpeg)]
    ensures req.body == pdf && req.bodyContentType == Planning.PdfContentType
  {
    Request("POST", c.baseUrl + "/rasterize", c.bearerToken, [("Accept", "image/jpeg")], pdf, "application/pdf")
  }

  /** `Rasterize`, given the transport's answer to each request: the
      response body on success; a transport error wrapped behind
      "PDF rasterizer: " and no body otherwise. */
  function Rasterize(c: Client, pdf: seq<Http.byte>, transport: Request -> Result<seq<Http.byte>, Error>)
    : (r: Result<seq<Http.byte>, Error>)
    ensures r.Failure? <==> transport(RasterizeRequest(c, pdf)).Failure?
    ensures r.Failure? ==> Unwrap(r.error) == Some(transport(RasterizeRequest(c, pdf)).error)
                           && Text(r.error) == TransportPrefix + Text(transport(RasterizeRequest(c, pdf)).error)
    ensures r.Success? ==> r.value == transport(RasterizeRequest(c, pdf)).value
  {
    match transport(RasterizeRequest(c, pdf))
    case Failure(err) => Failure(Wrapped(TransportPrefix, err))
    case Success(body) => Success(body)
  }

  /** The header set the handler reads for a request: the listed headers
      with `Header.Set`, then the body's content type. */
  function WireHeader(req: Request): Http.Header
  {
    Http.Set(SetAll(map[], req.headers), "Content-Type", req.bodyContentType)
  }

  function SetAll(h: Http.Header, pairs: seq<(string, string)>): Http.Header
    decreases |pairs|
  {
    if pairs == [] then h else SetAll(Http.Set(h, pairs[0].0, pairs[0].1), pairs[1..])
  }

  /** The client and the server agree: the request passes the handler's
      Content-Type check and negotiates JPEG, so that (when the FIFO can be
      made) the handler plans a JPEG response rendered by Ghostscript's jpeg
      device. */
  lemma RasterizeRequestIsServedAsJpeg(c: Client, pdf: seq<Http.byte>, mkfifo: Outcome<Error>, token: Fifo.Token)
    ensures Planning.ContentTypeOk(WireHeader(RasterizeRequest(c, pdf)))
    ensures Http.Get(WireHeader(RasterizeRequest(c, pdf)), "Accept") == Planning.ImageJpeg
    ensures mkfifo.Pass? ==>
              var d := Planning.PlanRequest(WireHeader(RasterizeRequest(c, pdf)), mkfifo, token);
              d.Proceed? && d.plan.imageType == Planning.ImageJpeg && d.plan.device == "jpeg"
              && d.plan.contentType == Planning.ImageJpeg
  {
    var h := WireHeader(RasterizeRequest(c, pdf));
    assert SetAll(map[], [("Accept", "image/jpeg")]) == map["Accept" := ["image/jpeg"]];
    assert Http.Get(h, "Accept") == Planning.ImageJpeg;
    Planning.ProceedPlan(h, mkfifo, token);
  }
}
