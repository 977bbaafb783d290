/** Properties of the HTTP surface: what the gate, the render handler and
    the routing promise, on their own and together with the OIDC validator
    and the render use case. */
module ServiceProperties {
  import opened Wrappers
  import opened GoStrings
  import opened AppErrors
  import opened Runner
  import opened PdfUseCase
  import opened Service
  import OidcAuth

  /** The request passes the auth gate. */
  predicate Authenticated(req: Request, env: Env) {
    ParseBearerToken(req.authorization).Success? && env.validate(ParseBearerToken(req.authorization).value).None?
  }

  /** The healthcheck answers 200 "OK" for any method and any credentials,
      without consulting the validator or the renderer. */
  lemma HealthcheckWithoutAuth(req: Request, env: Env)
    requires req.path == HealthcheckPath
    ensures var x := ServeHTTP(req, env);
      x.response.status == 200 && x.response.text == "OK" && x.response.body == [] &&
      x.validated.None? && x.rendered.None?
  {
  }

  /** A malformed `Authorization` header is 401 "Unauthorized" on every
      path but the healthcheck, without calling the validator. */
  lemma MalformedHeaderUnauthorized(req: Request, env: Env)
    requires req.path != HealthcheckPath && ParseBearerToken(req.authorization).Failure?
    ensures var x := ServeHTTP(req, env);
      x.response.status == 401 && x.response.text == "Unauthorized\n" && x.validated.None? && x.rendered.None?
  {
  }

  /** A validator error is answered 403 "Forbidden" when `ErrForbidden` is
      on its chain and 401 "Unauthorized" otherwise. */
  lemma DenialReply(e: Err)
    ensures var resp := HttpError(map[], Denial(e));
      (Is(e, Forbidden) ==> resp.status == 403 && resp.text == "Forbidden\n") &&
      (!Is(e, Forbidden) ==> resp.status == 401 && resp.text == "Unauthorized\n")
  {
  }

  /** A validator error on any path but the healthcheck is denied as above;
      nothing is rendered. */
  lemma ValidatorDenial(req: Request, env: Env, token: string, e: Err)
    requires req.path != HealthcheckPath && ParseBearerToken(req.authorization) == Success(token)
    requires env.validate(token) == Some(e)
    ensures var x := ServeHTTP(req, env);
      x.validated == Some(token) && x.rendered.None? &&
      (Is(e, Forbidden) ==> x.response.status == 403 && x.response.text == "Forbidden\n") &&
      (!Is(e, Forbidden) ==> x.response.status == 401 && x.response.text == "Unauthorized\n")
  {
    assert ServeHTTP(req, env) == Exchange(HttpError(map[], Denial(e)), Some(token), None);
    DenialReply(e);
  }

  /** Only a token the validator accepted reaches the render handler. */
  lemma RenderOnlyWhenAccepted(req: Request, env: Env)
    ensures ServeHTTP(req, env).rendered.Some? ==> req.path != HealthcheckPath && Authenticated(req, env)
  {
  }

  /** Once the validator accepts the token, the render handler alone
      decides the response. */
  lemma AcceptedReachesRender(req: Request, env: Env, token: string)
    requires req.path != HealthcheckPath && ParseBearerToken(req.authorization) == Success(token)
    requires env.validate(token).None?
    ensures ServeHTTP(req, env) == Exchange(RenderPDF(req, env).response, Some(token), RenderPDF(req, env).call)
  {
  }

  /** Any method other than POST is 405, whatever the content type and
      body: the method is checked first. */
  lemma MethodCheckedFirst(req: Request, env: Env)
    requires req.httpMethod != MethodPost
    ensures var rd := RenderPDF(req, env);
      rd.response.status == 405 && rd.response.text == "Method not allowed\n" && rd.call.None?
  {
  }

  /** A POST whose content type does not parse, whose media type is not
      `multipart/form-data`, or whose multipart reader cannot be opened,
      is 400 "Multipart request required." and renders nothing. */
  lemma MultipartRequired(req: Request, env: Env)
    requires req.httpMethod == MethodPost
    requires req.mediaType != Success(MultipartFormData) || req.multipartErr.Some?
    ensures var rd := RenderPDF(req, env);
      rd.response.status == 400 && rd.response.text == MultipartRequiredMessage + "\n" && rd.call.None?
  {
  }

  /** A well-formed request runs the use case; a successful render answers
      200 with the PDF headers and exactly the bytes the renderer wrote. */
  lemma RenderSuccess(req: Request, env: Env)
    requires RequestCheck(req).None?
    requires Generate(env.mkdirTemp, env.openRoot, req.parts, req.end, env.runner).err.None?
    ensures var g := Generate(env.mkdirTemp, env.openRoot, req.parts, req.end, env.runner);
      var rd := RenderPDF(req, env);
      rd.call == g.call && g.call.Some? &&
      rd.response == Response(200, PdfHeader, env.runner(g.call.value).output, "")
  {
    RenderOnlyAfterIngest(env.mkdirTemp, env.openRoot, req.parts, req.end, env.runner);
  }

  /** A renderer failure after the first byte keeps the committed 200 and
      PDF headers; the body is the truncated output followed by the error
      message. Before the first byte it is a proper 500. */
  lemma RenderFailure(req: Request, env: Env)
    requires RequestCheck(req).None?
    requires Generate(env.mkdirTemp, env.openRoot, req.parts, req.end, env.runner).call.Some?
    requires env.runner(Generate(env.mkdirTemp, env.openRoot, req.parts, req.end, env.runner).call.value).err.Some?
    ensures var g := Generate(env.mkdirTemp, env.openRoot, req.parts, req.end, env.runner);
      var out := env.runner(g.call.value);
      var resp := RenderPDF(req, env).response;
      resp.body == out.output && resp.text == GenerationFailedMessage + "\n" &&
      (out.output != [] ==> resp.status == 200 && resp.header == PdfHeader) &&
      (out.output == [] ==> resp.status == 500 && resp.header["Content-Type"] == ErrorContentType)
  {
    RunnerFailureIsInternal(env.mkdirTemp, env.openRoot, req.parts, req.end, env.runner);
  }

  /** Past the gate the handler answers only 200, 400, 405 or 500, and an
      internal failure never shows its cause to the client: every 500
      carries one of the two fixed messages. Both hold provided the
      multipart reader's own errors are not classified errors. */
  lemma RenderReplies(req: Request, env: Env)
    requires As(req.end).None?
    ensures var resp := RenderPDF(req, env).response;
      resp.status == 200 || resp.status == 400 || resp.status == 405 || resp.status == 500
    ensures var resp := RenderPDF(req, env).response;
      resp.status == 500 ==> resp.text == GenericFailureMessage + "\n" || resp.text == GenerationFailedMessage + "\n"
  {
    IngestErrors(req.parts, req.end);
  }

  /** The form fields the service's render test sends, each as a file part
      named after its field with `.txt` appended. */
  const SampleFields: seq<StreamPart> :=
    [Part("html", "html.txt", None), Part("css", "css.txt", None), Part("asset.logo", "asset.logo.txt", None)]

  /** The fields in the order `a`, `b`, `c` (the test builds them from a
      map, so any order may occur), then the `attachment.test` file part. */
  function SampleParts(a: nat, b: nat, c: nat): seq<StreamPart>
    requires a < 3 && b < 3 && c < 3
  {
    [SampleFields[a], SampleFields[b], SampleFields[c], Part("attachment.test", "notes.txt", None)]
  }

  /** In every order, ingesting those parts keeps the uploaded HTML and CSS
      files, skips the `asset.logo` part and keeps the one attachment. */
  lemma SampleIngest(a: nat, b: nat, c: nat)
    requires a < 3 && b < 3 && c < 3 && a != b && a != c && b != c
    ensures Ingest(SampleParts(a, b, c), Eof) == Success(PartSet("html.txt", "css.txt", ["notes.txt"]))
  {
    var parts := SampleParts(a, b, c);
    assert !IsAttachmentField("html") by {
      assert !HasPrefix("html", "attachment.") && !HasPrefix("html", "file.");
    }
    assert !IsAttachmentField("css") by {
      assert !HasPrefix("css", "attachment.") && !HasPrefix("css", "file.");
    }
    assert !IsAttachmentField("asset.logo") by {
      assert "asset.logo"[..5][0] != "file."[0];
      assert !HasPrefix("asset.logo", "attachment.") && !HasPrefix("asset.logo", "file.");
    }
    assert HasPrefix("attachment.test", "attachment.");
    var ih := if a == 0 then 0 else if b == 0 then 1 else 2;
    var ic := if a == 1 then 0 else if b == 1 then 1 else 2;
    assert LastNamed(parts, "html", ih);
    assert LastNamed(parts, "css", ic);
    assert AttachmentNames(parts) == ["notes.txt"] by {
      assert AttachmentNames(parts[3..]) == ["notes.txt"];
      assert parts[2..][1..] == parts[3..];
      assert AttachmentNames(parts[2..]) == ["notes.txt"];
      assert parts[1..][1..] == parts[2..];
      assert AttachmentNames(parts[1..]) == ["notes.txt"];
    }
    IngestComplete(parts);
  }

  /** The bytes `%PDF-1.4`. */
  const SamplePdf: seq<byte> := [37, 80, 68, 70, 45, 49, 46, 52]

  /** The service's render test, end to end: a `Bearer` token the validator
      accepts, a multipart POST with the HTML, CSS and logo fields and an
      attachment, and a renderer that writes `%PDF-1.4`: 200, the PDF
      headers, exactly those bytes, and the renderer asked for the uploaded
      HTML and CSS files and the one attachment. */
  lemma EndToEnd(t: string, path: string, a: nat, b: nat, c: nat, env: Env)
    requires t != [] && !IsSpace(t[0]) && !IsSpace(t[|t| - 1])
    requires path != HealthcheckPath && env.validate(t).None?
    requires env.mkdirTemp.Success? && env.openRoot.None?
    requires a < 3 && b < 3 && c < 3 && a != b && a != c && b != c
    requires env.runner(RunnerCall(env.mkdirTemp.value, "html.txt", "css.txt", ["notes.txt"])) ==
             RunOutcome(SamplePdf, None)
    ensures var req := Request(MethodPost, path, "Bearer " + t, Success(MultipartFormData), None,
                               SampleParts(a, b, c), Eof);
      var x := ServeHTTP(req, env);
      x.validated == Some(t) &&
      x.rendered == Some(RunnerCall(env.mkdirTemp.value, "html.txt", "css.txt", ["notes.txt"])) &&
      x.response == Response(200, PdfHeader, SamplePdf, "")
  {
    var req := Request(MethodPost, path, "Bearer " + t, Success(MultipartFormData), None,
                       SampleParts(a, b, c), Eof);
    assert "Bearer " + t == "Bearer" + " " + t;
    ParseBearerRoundTrip("Bearer", t);
    AcceptedReachesRender(req, env, t);
    SampleIngest(a, b, c);
    var call := RunnerCall(env.mkdirTemp.value, "html.txt", "css.txt", ["notes.txt"]);
    assert Generate(env.mkdirTemp, env.openRoot, req.parts, req.end, env.runner) ==
           Generation(None, Some(call), SamplePdf);
    assert RequestCheck(req).None?;
    RenderSuccess(req, env);
  }

  /** With the OIDC validator behind the gate, 403 is returned exactly when
      the token is genuine, for this audience and issuer, and lacks the
      required scope; a token failing any earlier check is 401. */
  lemma ForbiddenExactlyForMissingScope(req: Request, env: Env, v: OidcAuth.OIDCValidator, jwt: OidcAuth.JwtLibrary)
    requires req.path != HealthcheckPath && ParseBearerToken(req.authorization).Success?
    requires forall tok :: env.validate(tok) == OidcAuth.Validate(v, tok, jwt)
    requires OidcAuth.LibraryErrorsPlain(v, ParseBearerToken(req.authorization).value, jwt)
    requires As(req.end).None?
    ensures var tok := ParseBearerToken(req.authorization).value;
      var parsed := jwt.parse(tok, v.keySet);
      ServeHTTP(req, env).response.status == 403 <==>
        parsed.Success? && jwt.validateAudience(parsed.value, v.audience).None? &&
        OidcAuth.NormalizeIssuer(parsed.value.issuer) == v.issuer &&
        !OidcAuth.HasRequiredScope(parsed.value, v.scope)
    ensures var tok := ParseBearerToken(req.authorization).value;
      var parsed := jwt.parse(tok, v.keySet);
      ServeHTTP(req, env).response.status == 401 <==>
        OidcAuth.Validate(v, tok, jwt).Some? &&
        !(parsed.Success? && jwt.validateAudience(parsed.value, v.audience).None? &&
          OidcAuth.NormalizeIssuer(parsed.value.issuer) == v.issuer &&
          !OidcAuth.HasRequiredScope(parsed.value, v.scope))
  {
    var tok := ParseBearerToken(req.authorization).value;
    OidcAuth.ForbiddenOnlyForMissingScope(v, tok, jwt);
    if env.validate(tok).None? {
      RenderReplies(req, env);
    }
  }
}
