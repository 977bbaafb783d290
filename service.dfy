/** The HTTP surface: the healthcheck, the bearer-token gate in front of
    every other path, and the render handler's method and content-type
    checks, followed by the render use case. Handlers are modelled as a
    decision from the request and the outcomes of the collaborators (the
    token validator, the workspace, the renderer) to the response written. */
module Service {
  import opened Wrappers
  import opened GoStrings
  import opened AppErrors
  import opened Runner
  import opened PdfUseCase

  const HealthcheckPath := "/healthcheck"
  const MethodPost := "POST"
  const MultipartFormData := "multipart/form-data"
  const MultipartRequiredMessage := "Multipart request required."
  const PdfContentType := "application/pdf"
  const PdfDisposition := "attachment; filename=\"output.pdf\""
  /** The headers `http.Error` sets before writing its message. */
  const ErrorContentType := "text/plain; charset=utf-8"

  // ---------------------------------------------------------------------
  // Bearer tokens.

  /** The header starts with the word `Bearer`, in any case, and a space. */
  predicate BearerPrefixed(h: string) {
    |h| >= 7 && EqualFold(h[..6], "Bearer") && h[6] == ' '
  }

  /** Splitting at the first space yields a `Bearer` scheme exactly when the
      header is `Bearer`-prefixed, and the remainder is what follows the
      space. */
  lemma SplitBearer(h: string)
    ensures var parts := SplitAtFirstSpace(h);
      (|parts| == 2 && EqualFold(parts[0], "Bearer")) <==> BearerPrefixed(h)
    ensures BearerPrefixed(h) ==> SplitAtFirstSpace(h)[1] == h[7..]
  {
    var parts := SplitAtFirstSpace(h);
    if |parts| == 2 && EqualFold(parts[0], "Bearer") {
      assert h == parts[0] + " " + parts[1];
      assert h[..6] == parts[0] && h[6] == ' ' && h[7..] == parts[1];
    }
    if BearerPrefixed(h) {
      assert h[6] == ' ';
      assert |parts| == 2;
      var k := |parts[0]|;
      assert h == parts[0] + " " + parts[1];
      assert h[k] == ' ';
      assert k == 6;
      assert h[7..] == parts[1];
    }
  }

  /** `parseBearerToken`. A token it returns is never empty and never
      starts or ends with white space. */
  function ParseBearerToken(h: string): (r: Result<string, Err>)
    ensures r.Success? ==> r.value != "" && !IsSpace(r.value[0]) && !IsSpace(r.value[|r.value| - 1])
  {
    if h == "" then Failure(Plain("missing authorization"))
    else
      var parts := SplitAtFirstSpace(h);
      if |parts| != 2 || !EqualFold(parts[0], "Bearer") then Failure(Plain("invalid authorization scheme"))
      else
        var token := TrimSpace(parts[1]);
        if token == "" then Failure(Plain("missing token")) else Success(token)
  }

  /** The token is what follows `Bearer ` (the scheme in any case), with
      surrounding white space trimmed; an empty header, any other scheme,
      and an empty token are the three distinct errors. */
  lemma ParseBearerTokenMeaning(h: string)
    ensures var r := ParseBearerToken(h);
      (h == "" ==> r == Failure(Plain("missing authorization"))) &&
      (h != "" && !BearerPrefixed(h) ==> r == Failure(Plain("invalid authorization scheme"))) &&
      (BearerPrefixed(h) && TrimSpace(h[7..]) == "" ==> r == Failure(Plain("missing token"))) &&
      (BearerPrefixed(h) && TrimSpace(h[7..]) != "" ==> r == Success(TrimSpace(h[7..])))
  {
    SplitBearer(h);
  }

  /** `Bearer <t>` yields `t` back, whatever the case of the scheme, for any
      non-empty token without surrounding white space. */
  lemma ParseBearerRoundTrip(scheme: string, t: string)
    requires EqualFold(scheme, "Bearer")
    requires t != [] && !IsSpace(t[0]) && !IsSpace(t[|t| - 1])
    ensures ParseBearerToken(scheme + " " + t) == Success(t)
  {
    var h := scheme + " " + t;
    assert h[..6] == scheme && h[6] == ' ' && h[7..] == t;
    TrimSpaceTrimmed(t);
    ParseBearerTokenMeaning(h);
  }

  /** The scheme word is compared without regard to case. */
  lemma ParseBearerCaseInsensitive(scheme: string, rest: string)
    requires EqualFold(scheme, "Bearer")
    ensures ParseBearerToken(scheme + rest) == ParseBearerToken("Bearer" + rest)
  {
    var h1, h2 := scheme + rest, "Bearer" + rest;
    assert h1[..6] == scheme && h2[..6] == "Bearer";
    assert |h1| >= 7 ==> h1[6] == h2[6] && h1[7..] == h2[7..];
    ParseBearerTokenMeaning(h1);
    ParseBearerTokenMeaning(h2);
  }

  // ---------------------------------------------------------------------
  // Requests, collaborators and responses.

  /** What the handlers read from a request: the method, the path, the
      `Authorization` header, the media type parsed from `Content-Type`
      (or the parse error), the error of opening the multipart reader, and
      the stream of parts with how it ends. */
  datatype Request = Request(httpMethod: string, path: string, authorization: string,
                             mediaType: Result<string, Err>, multipartErr: Option<Err>,
                             parts: seq<StreamPart>, end: Err)

  /** The collaborators' outcomes: the token validator, creating and
      opening the workspace, and the renderer. */
  datatype Env = Env(validate: string -> Option<Err>, mkdirTemp: Result<string, Err>,
                     openRoot: Option<Err>, runner: RunnerCall -> RunOutcome)

  /** The response: status, headers, and the body made of the bytes the
      renderer streamed followed by the text the handlers wrote. */
  datatype Response = Response(status: int, header: map<string, string>, body: seq<byte>, text: string)

  /** The response together with the token handed to the validator and the
      request made of the renderer, if any. */
  datatype Exchange = Exchange(response: Response, validated: Option<string>, rendered: Option<RunnerCall>)

  const PdfHeader: map<string, string> :=
    map["Content-Type" := PdfContentType, "Content-Disposition" := PdfDisposition]

  /** `http.Error` on a response not yet committed: the reply for `err`
      with the error content type, over the headers already set. */
  function HttpError(header: map<string, string>, err: Err): Response {
    var reply := ReplyFor(err);
    Response(reply.status, header["Content-Type" := ErrorContentType]["X-Content-Type-Options" := "nosniff"],
             [], reply.body)
  }

  /** What the render handler writes, and whom it asked to render. */
  datatype Rendering = Rendering(response: Response, call: Option<RunnerCall>)

  /** The checks `renderPDF` makes before reading the body: the method,
      then the media type, then the multipart reader. */
  function RequestCheck(req: Request): Option<Err> {
    if req.httpMethod != MethodPost then Some(NewMethodNotAllowedError("Method not allowed", None))
    else if req.mediaType.Failure? then Some(NewBadRequestError(MultipartRequiredMessage, Some(req.mediaType.error)))
    else if req.mediaType.value != MultipartFormData then Some(NewBadRequestError(MultipartRequiredMessage, None))
    else if req.multipartErr.Some? then Some(NewBadRequestError(MultipartRequiredMessage, req.multipartErr))
    else None
  }

  /** The response once the PDF headers are set and the use case has run.
      After the renderer has written a byte the status and the headers are
      committed: a later failure can only append the error text. */
  function Deliver(g: Generation): Response {
    if g.err.None? then Response(StatusOK, PdfHeader, g.written, "")
    else if g.written != [] then Response(StatusOK, PdfHeader, g.written, ReplyFor(g.err.value).body)
    else HttpError(PdfHeader, g.err.value)
  }

  /** `renderPDF`. */
  function RenderPDF(req: Request, env: Env): Rendering {
    match RequestCheck(req)
    case Some(e) => Rendering(HttpError(map[], e), None)
    case None =>
      var g := Generate(env.mkdirTemp, env.openRoot, req.parts, req.end, env.runner);
      Rendering(Deliver(g), g.call)
  }

  /** The error `requireAuth` answers a validator error with. */
  function Denial(e: Err): Err {
    if Is(e, Forbidden) then NewForbiddenError("Forbidden", Some(e))
    else NewUnauthorizedError("Unauthorized", Some(e))
  }

  /** `requireAuth` in front of `renderPDF`. */
  function RequireAuth(req: Request, env: Env): Exchange {
    match ParseBearerToken(req.authorization)
    case Failure(e) => Exchange(HttpError(map[], NewUnauthorizedError("Unauthorized", Some(e))), None, None)
    case Success(token) =>
      match env.validate(token)
      case Some(e) => Exchange(HttpError(map[], Denial(e)), Some(token), None)
      case None =>
        var rd := RenderPDF(req, env);
        Exchange(rd.response, Some(token), rd.call)
  }

  /** `Routes`: `/healthcheck` answers directly; every other path goes
      through the auth gate to the render handler. */
  function ServeHTTP(req: Request, env: Env): Exchange {
    if req.path == HealthcheckPath then Exchange(Response(StatusOK, map[], [], "OK"), None, None)
    else RequireAuth(req, env)
  }
}
