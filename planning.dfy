/** The decisions the `/rasterize` handler takes before it streams anything
    (cmd/pdfrasterizer/main.go): content-type validation, `Accept`
    negotiation, the FIFO path, the Ghostscript device and command line. The
    outcome of `syscall.Mkfifo` and the random token are parameters. */
module Planning {
  import opened Wrappers
  import opened Errors
  import Http
  import Fifo
  import Ghostscript

  const RasterizeRoute := "/rasterize"
  const PdfContentType := "application/pdf"
  const ImagePng := "image/png"
  const ImageJpeg := "image/jpeg"
  const ContentTypeRequired := "Required: 'Content-Type: application/pdf'"
  const UnsupportedImageType := "unsupported requested image type: "

  /** The only accepted request body type, compared as an exact string. */
  predicate ContentTypeOk(h: Http.Header)
  {
    Http.Get(h, "Content-Type") == PdfContentType
  }

  /** Lenient negotiation: the one alternate value selects JPEG, anything
      else (absent, malformed, a list, a wildcard) falls back to PNG. */
  function NegotiateImageType(accept: string): (imageType: string)
    ensures imageType == ImageJpeg <==> accept == ImageJpeg
    ensures imageType == ImagePng <==> accept != ImageJpeg
  {
    if accept == ImageJpeg then ImageJpeg else ImagePng
  }

  /** The `switch` choosing Ghostscript's output device. */
  function GsDevice(imageType: string): (r: Result<string, Error>)
    ensures r.Success? <==> imageType == ImageJpeg || imageType == ImagePng
    ensures r == Success("jpeg") <==> imageType == ImageJpeg
    ensures r == Success("png16m") <==> imageType == ImagePng
    ensures r.Failure? ==> Text(r.error) == UnsupportedImageType + imageType
  {
    if imageType == ImageJpeg then Success("jpeg")
    else if imageType == ImagePng then Success("png16m")
    else Failure(Message(UnsupportedImageType + imageType))
  }

  /** Whatever the client sends, the negotiated type has a device: the
      switch's default branch cannot be reached from the handler. */
  lemma NegotiatedTypeHasDevice(accept: string)
    ensures GsDevice(NegotiateImageType(accept)).Success?
  {
  }

  datatype Plan = Plan(
    imageType: string,
    device: string,
    outputPath: string,
    argv: seq<string>,
    contentType: string)   // the response's Content-Type

  datatype Decision = Reject(status: int, message: string) | Proceed(plan: Plan)

  /** The HTTP status the client sees: the rejection's, or 200 once the
      response body is being streamed. */
  function StatusOf(d: Decision): int
  {
    match d
    case Reject(s, _) => s
    case Proceed(_) => Http.StatusOK
  }

  /** The handler's decisions, in the handler's order. A rejection is a 400
      or a 500; a plan renders the negotiated type with the device the
      `switch` picks for it, into the token's FIFO, and answers with that
      type. */
  function PlanRequest(h: Http.Header, mkfifo: Outcome<Error>, token: Fifo.Token): (d: Decision)
    ensures d.Reject? ==> d.status == Http.StatusBadRequest || d.status == Http.StatusInternalServerError
    ensures d.Proceed? ==>
              && GsDevice(d.plan.imageType) == Success(d.plan.device)
              && d.plan.outputPath == Fifo.FifoPath(token)
              && d.plan.argv == Ghostscript.Argv(d.plan.outputPath, d.plan.device)
              && d.plan.contentType == d.plan.imageType
  {
    if Http.Get(h, "Content-Type") != PdfContentType then
      Reject(Http.StatusBadRequest, ContentTypeRequired)
    else
      var imageType := NegotiateImageType(Http.Get(h, "Accept"));
      var outputPath := Fifo.FifoPath(token);
      match mkfifo
      case Fail(err) => Reject(Http.StatusInternalServerError, Text(err))
      case Pass =>
        match GsDevice(imageType)
        case Failure(err) => Reject(Http.StatusBadRequest, Text(err))
        case Success(device) =>
          Proceed(Plan(imageType, device, outputPath, Ghostscript.Argv(outputPath, device), imageType))
  }

  /** A request whose Content-Type is not exactly application/pdf is
      rejected with 400, whatever the FIFO and the token would have been;
      and that is the only 400 there is. */
  lemma ContentTypeGate(h: Http.Header, mkfifo: Outcome<Error>, token: Fifo.Token)
    ensures !ContentTypeOk(h) ==> PlanRequest(h, mkfifo, token) == Reject(Http.StatusBadRequest, ContentTypeRequired)
    ensures PlanRequest(h, mkfifo, token).Reject? && PlanRequest(h, mkfifo, token).status == Http.StatusBadRequest
            <==> !ContentTypeOk(h)
  {
    NegotiatedTypeHasDevice(Http.Get(h, "Accept"));
  }

  /** A failed mkfifo after a valid Content-Type is a 500 carrying the
      error's text; no plan (and so no Ghostscript) comes of it. */
  lemma MkfifoFailureIs500(h: Http.Header, mkfifo: Outcome<Error>, token: Fifo.Token)
    ensures ContentTypeOk(h) && mkfifo.Fail? ==>
              PlanRequest(h, mkfifo, token) == Reject(Http.StatusInternalServerError, Text(mkfifo.error))
    ensures PlanRequest(h, mkfifo, token).Reject? && PlanRequest(h, mkfifo, token).status == Http.StatusInternalServerError
            <==> ContentTypeOk(h) && mkfifo.Fail?
  {
  }

  /** Every other request is streamed, with the negotiated image type, the
      device for it, the FIFO under /tmp named by the token, the fixed
      Ghostscript template, and the image type as response Content-Type. */
  lemma ProceedPlan(h: Http.Header, mkfifo: Outcome<Error>, token: Fifo.Token)
    ensures PlanRequest(h, mkfifo, token).Proceed? <==> ContentTypeOk(h) && mkfifo.Pass?
    ensures PlanRequest(h, mkfifo, token).Proceed? ==>
              var p := PlanRequest(h, mkfifo, token).plan;
              && (p.imageType == ImageJpeg <==> Http.Get(h, "Accept") == ImageJpeg)
              && (p.imageType == ImagePng <==> Http.Get(h, "Accept") != ImageJpeg)
              && (p.device == "jpeg" <==> p.imageType == ImageJpeg)
              && (p.device == "png16m" <==> p.imageType == ImagePng)
              && p.outputPath == Fifo.FifoPath(token)
              && p.argv == Ghostscript.Argv(p.outputPath, p.device)
              && p.contentType == p.imageType
  {
    NegotiatedTypeHasDevice(Http.Get(h, "Accept"));
  }

  /** The status never depends on the token, and a request is only ever
      answered with 200, 400 or 500. */
  lemma StatusIsOneOfThree(h: Http.Header, mkfifo: Outcome<Error>, token1: Fifo.Token, token2: Fifo.Token)
    ensures StatusOf(PlanRequest(h, mkfifo, token1)) == StatusOf(PlanRequest(h, mkfifo, token2))
    ensures StatusOf(PlanRequest(h, mkfifo, token1)) in {Http.StatusOK, Http.StatusBadRequest, Http.StatusInternalServerError}
  {
  }
}
