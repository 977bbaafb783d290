# bcc-pdf in Dafny

A model of the request pipeline of the bcc-pdf service. The service accepts an
authenticated multipart upload and renders it to PDF with WeasyPrint inside a
bubblewrap sandbox. The model covers:

- **classified errors** (`AppError`), Go's error chains (`Unwrap`,
  `errors.Is`, `errors.As`), and how `writeHTTPError` turns an error into an
  HTTP reply and a log record (`app_errors.dfy`);
- **the OIDC validator**: its construction (issuer normalisation and the
  key-set location) and token validation (signature, then audience, then
  issuer, then scope; only a missing scope is `ErrForbidden`)
  (`auth_oidc.dfy`);
- **the WeasyPrint runner**: the sandbox command line built by a loop, and how
  the runner passes its output through and wraps its errors
  (`runner_weasyprint.dfy`);
- **the render use case**: the multipart part loop as a `PartReader` and a
  `PartProcessor` whose fields the loop updates, the post-loop checks, and
  `generatePDFToWriter`, whose ghost flags record that a created workspace is
  removed on every path (`pdf_usecase.dfy`);
- **the HTTP surface**: bearer-token parsing, the auth gate, the render
  handler's checks, routing, and the committed-200 behaviour of a late render
  failure (`service.dfy`, with its properties in `service_properties.dfy`);
- **the Go standard-library pieces the core relies on**: `unicode.IsSpace`,
  `strings.TrimSpace`, `TrimRight`, `Fields`, `EqualFold`, `HasPrefix`, and
  `SplitN(s, " ", 2)` (`go_strings.dfy`).

Saving a part opens its file name inside the workspace root, and an empty
name never opens. The model's `StreamPart` type therefore admits a part
without a file name only together with a save error. A plain form field, or
an `html` part with no file name, ends the request with 500 "Failed to
process request.", not with 400.

The model treats these as parameters: the token validator, the JWT library,
the key-set fetch, the multipart parser (as a stream of parts ending in
`io.EOF` or a read error), the outcome of saving each part, workspace
creation and opening, and the sandboxed process. Each enters as a function
or an outcome value.

Where the code's behaviour differs from what its routes and messages suggest,
the model follows the code:

- Every path except `/healthcheck` goes through the auth gate to the render
  handler, not just `/pdf`.
- `/healthcheck` answers any method.
- A renderer failure is answered with "PDF generation failed.", not with the
  generic "Failed to process request.".
- A body over the size limit is never answered with 413. Crossed inside a
  part's body, the limit fails the copy in `savePart`
  (internal/app/pdf_usecase.go:104), which is classified as an internal error
  (internal/app/pdf_usecase.go:82-84). Crossed while the reader reads part
  headers, it is a read error that is returned unclassified. Either way the
  answer is 500 "Failed to process request.".

## Model

| member | source | states |
|---|---|---|
| AppErrors.Text | internal/app/errors.go:19-28 | `Error()` of every error the model carries: a classified error's message and cause, `errors.New` text, a `%w` wrapping as prefix, inner text and suffix, and the fixed texts of `io.EOF` and `ErrForbidden`; its partner is `ErrorTextUnwrap` |
| AppErrors.ErrorText | internal/app/errors.go:19-28 | `(*AppError).Error()` with a nil receiver giving ""; stated by `ErrorTextUnwrap` |
| AppErrors.Unwrap | internal/app/errors.go:30-35 | `(*AppError).Unwrap()`: nil for a nil receiver, otherwise the cause; stated by `ErrorTextUnwrap` |
| AppErrors.ErrorTextUnwrap | internal/app/errors.go:19-35 | a nil `*AppError` has empty text and unwraps to nil; otherwise the text is the message, plus ": " and the cause's text exactly when `Unwrap` gives a cause |
| AppErrors.Is | internal/app/service.go:64 | `errors.Is` by walking unwraps and comparing each error by value, which agrees with Go's identity comparison for the sentinels `io.EOF` and `ErrForbidden` the service compares against; its partner `IsOnChain` relates it to the independent `Chain` |
| AppErrors.IsOnChain | internal/app/service.go:64 | `errors.Is(e, target)` holds exactly when `target` is on the unwrap chain of `e` |
| AppErrors.As | internal/app/errors.go:72-73 | `errors.As` into `*AppError` by walking unwraps; its partner `AsFirstOnChain` relates it to `Chain` |
| AppErrors.AsFirstOnChain | internal/app/errors.go:72-73 | `errors.As` finds nothing exactly when no `*AppError` is on the chain, and otherwise finds the first one |
| AppErrors.NewBadRequestError | internal/app/errors.go:37-39 | builds a classified error with status 400, keeping the message and the cause |
| AppErrors.NewRequestTooLargeError | internal/app/errors.go:41-43 | builds a classified error with status 413, keeping the message and the cause |
| AppErrors.NewUnauthorizedError | internal/app/errors.go:45-47 | builds a classified error with status 401, keeping the message and the cause |
| AppErrors.NewForbiddenError | internal/app/errors.go:49-51 | builds a classified error with status 403, keeping the message and the cause |
| AppErrors.NewMethodNotAllowedError | internal/app/errors.go:53-55 | builds a classified error with status 405, keeping the message and the cause |
| AppErrors.NewInternalError | internal/app/errors.go:57-59 | builds a classified error with status 500, keeping the message and the cause |
| AppErrors.ConstructorReplies | internal/app/errors.go:37-59 | an error from each constructor is answered with that constructor's status and its own message, whatever the cause; its text is the message followed by the cause's text |
| AppErrors.ReplyFor | internal/app/errors.go:72-90 | the status and `http.Error` body `writeHTTPError` sends for an error; stated by `ReplyFromChain`, `ReplyIgnoresCauseAndContext` and `ConstructorReplies` |
| AppErrors.ReplyFromChain | internal/app/errors.go:72-90 | with no classified error on the chain the reply is 500 "Failed to process request."; otherwise the first classified error on the chain gives the status and the message |
| AppErrors.ReplyIgnoresCauseAndContext | internal/app/errors.go:72-83 | the reply never depends on the cause of the classified error, nor on `%w` context wrapped around it |
| AppErrors.WriteHTTPError | internal/app/errors.go:61-91 | the reply is the chain's classification, and the log level is warn exactly below 500; the attributes are method, path, remote address, cause and status, plus the message for a classified error; the log message names an unexpected error type otherwise; the span status is the error's text |
| OidcAuth.NormalizeIssuer | internal/app/auth_oidc.go:96-98 | the result is the issuer minus a run of trailing slashes, and does not end in a slash |
| OidcAuth.NormalizeIssuerIdempotent | internal/app/auth_oidc.go:96-98 | normalising is idempotent, leaves an issuer without a trailing slash alone, and ignores an added slash |
| OidcAuth.NewOIDCValidator | internal/app/auth_oidc.go:23-55 | an empty issuer, audience or scope is rejected in that order, with its own message, before any fetch; otherwise keys are fetched from the normalised issuer plus `/.well-known/jwks.json`; success happens exactly when the fetch succeeds with a non-empty key set, and then stores the normalised issuer, the audience, the scope and the keys |
| OidcAuth.ConstructionIgnoresTrailingSlash | internal/app/auth_oidc.go:36-37 | issuers that differ by a trailing slash construct the same validator from the same URI |
| OidcAuth.HasRequiredScope | internal/app/auth_oidc.go:82-94 | `hasRequiredScope`: false without a `scope` claim or when it is not a string, otherwise membership in `strings.Fields`; stated by `HasRequiredScopeExact` |
| OidcAuth.Quote | internal/app/auth_oidc.go:76 | `%q` of the required scope in the forbidden message; its partner is `QuoteRoundTrip` |
| OidcAuth.QuoteRoundTrip | internal/app/auth_oidc.go:76 | the quoted scope is enclosed in double quotes, and undoing the escapes between them gives the scope back |
| OidcAuth.HasRequiredScopeExact | internal/app/auth_oidc.go:82-94 | the scope test holds exactly when the `scope` claim is a string in which the required scope stands as a whole whitespace-delimited word |
| OidcAuth.RequiredScopeMustBeOneWord | internal/app/auth_oidc.go:93 | an empty required scope, or one containing white space, is never satisfied |
| OidcAuth.ScopeExampleNoPrefixMatch | internal/app/auth_oidc.go:93 | `pdf#create2` does not satisfy `pdf#create` |
| OidcAuth.ScopeAmongOthers | internal/app/auth_oidc.go:93 | a required scope set off by white space among any other scopes is satisfied |
| OidcAuth.Validate | internal/app/auth_oidc.go:57-80 | a token is accepted exactly when it parses and verifies, has the audience, has the stored issuer (its own trailing slashes ignored) and has the scope; the first failing check determines the error, and only the scope failure wraps `ErrForbidden` |
| OidcAuth.ForbiddenOnlyForMissingScope | internal/app/auth_oidc.go:57-80 | `ErrForbidden` is on the error's chain exactly when the token passed signature, audience and issuer checks and lacks the scope |
| OidcAuth.IssuerCheckIgnoresTrailingSlashes | internal/app/auth_oidc.go:71-73 | for a constructed validator, the issuer check compares both issuers with trailing slashes removed |
| Runner.StylesheetSource | internal/app/runner_weasyprint.go:29-32 | the bound stylesheet is the configured path, or `assets/default.css` when none is configured; never empty |
| Runner.AttachmentArgsAt | internal/app/runner_weasyprint.go:58-60 | the attachment arguments are one `--attachment` flag per attachment, each followed by the attachment, in order |
| Runner.SandboxArgs | internal/app/runner_weasyprint.go:28-63 | the whole bubblewrap argument list as a value: the fixed prefix, then one `--attachment` pair per attachment; stated by `SandboxShape`, `InputsOnlyAtDesignatedPositions` and `AttachmentArgsAt`, and computed by the loop of `BuildArgs` |
| Runner.BuildArgs | internal/app/runner_weasyprint.go:28-63 | the loop yields the sandbox command line: the 38-argument prefix followed by the flag pairs |
| Runner.SandboxShape | internal/app/runner_weasyprint.go:34-56 | the command line has 38 + 2n arguments; isolation flags come first; the default stylesheet is bound read-only to `/defaults/default.css`; the workspace is bound read-only to `/workspace` and entered; `--` precedes the renderer, the HTML file, `-` and `--stylesheet` with the stylesheet |
| Runner.InputsOnlyAtDesignatedPositions | internal/app/runner_weasyprint.go:34-56 | caller values appear only at positions 22, 25, 33, 34 and 37; every other prefix position is the same for all inputs |
| Runner.GeneratePDF | internal/app/runner_weasyprint.go:14-26 | the process output reaches the caller unchanged; the runner fails exactly when the process fails, keeps the process error on the chain, and its text is "weasyprint failed: " + that error + ": " + the trimmed standard error |
| PdfUseCase.Classify | internal/app/pdf_usecase.go:86-93 | the switch applied to a saved part: `html` and `css` replace their field, `attachment.*` and `file.*` append, other names change nothing; stated by `FoldLastWins`, `FoldAttachments` and `OtherPartsIgnored` |
| PdfUseCase.Drain | internal/app/pdf_usecase.go:52-61 | the part loop as a function: the first failing save stops it with a 500, otherwise it ends with `io.EOF` or the read error; stated by `DrainWithoutFailures`, `DrainStopsAtSaveFailure` and `DrainStop`, and computed by `PartProcessor.ProcessParts` |
| PdfUseCase.Finish | internal/app/pdf_usecase.go:63-71 | the checks after the loop: no HTML file gives 400, an empty stylesheet becomes the default; stated by `IngestComplete` |
| PdfUseCase.Ingest | internal/app/pdf_usecase.go:52-72 | `ProcessParts` from empty fields; stated by `IngestComplete`, `IngestSaveFailure`, `IngestReadError` and `IngestErrors` |
| PdfUseCase.DrainWithoutFailures | internal/app/pdf_usecase.go:52-61 | when every part saves, the loop classifies every part and stops at the stream's end: nothing for `io.EOF`, the read error otherwise |
| PdfUseCase.DrainStopsAtSaveFailure | internal/app/pdf_usecase.go:81-84 | at the first part that fails to save, the loop stops with a 500 carrying the save error, with only earlier parts classified |
| PdfUseCase.FoldLastWins | internal/app/pdf_usecase.go:86-90 | the `html` and `css` fields hold the file name of the last part with that form name, and are unchanged when there is none |
| PdfUseCase.FoldAttachments | internal/app/pdf_usecase.go:91-92 | attachment file names are appended in stream order, one per part named `attachment.*` or `file.*` |
| PdfUseCase.AttachmentPositionsNames | internal/app/pdf_usecase.go:91-92 | there are exactly as many attachment names as listed attachment positions, and the k-th name is the file name of the attachment part at the k-th position |
| PdfUseCase.AttachmentPositionsIncreasing | internal/app/pdf_usecase.go:91-92 | the attachment positions are strictly increasing, so the names keep stream order and no part is counted twice |
| PdfUseCase.AttachmentPositionsComplete | internal/app/pdf_usecase.go:91-92 | every part named `attachment.*` or `file.*` has its position listed, so the attachment list is exactly as long as the number of such parts |
| PdfUseCase.OtherPartsIgnored | internal/app/pdf_usecase.go:86-93 | inserting a part with any other form name anywhere changes no field |
| PdfUseCase.IngestComplete | internal/app/pdf_usecase.go:52-72 | for a stream whose parts all save and which ends in `io.EOF`: no `html` part gives 400 "No html file provided."; otherwise the result is the last `html` file name, the last `css` file name or the default stylesheet when there is no `css` part, and the attachment names in order |
| PdfUseCase.IngestSaveFailure | internal/app/pdf_usecase.go:81-84 | a failing save ends ingestion with 500 "Failed to process request." carrying the save error; later parts and the stream's end make no difference |
| PdfUseCase.IngestReadError | internal/app/pdf_usecase.go:54-60 | a read error other than `io.EOF` ends ingestion with that very error |
| PdfUseCase.DrainStop | internal/app/pdf_usecase.go:52-84 | the loop stops only at the stream's own end or with a generic 500 |
| PdfUseCase.IngestErrors | internal/app/pdf_usecase.go:52-84 | ingestion fails only with the read error, a generic 500, or 400 "No html file provided." |
| PdfUseCase.PartReader.constructor | internal/app/pdf_usecase.go:75 | a reader starts before its first part |
| PdfUseCase.PartReader.NextPart | internal/app/pdf_usecase.go:75-78 | returns the next part and advances, or returns the stream's end without moving once the parts are exhausted |
| PdfUseCase.PartProcessor.constructor | internal/app/pdf_usecase.go:26-29 | a processor starts with empty fields over the given reader |
| PdfUseCase.PartProcessor.ProcessPart | internal/app/pdf_usecase.go:74-95 | at the end of the stream it returns the end and changes nothing; a part that fails to save gives a 500 with the save error and leaves the fields; otherwise the part is classified into the fields |
| PdfUseCase.PartProcessor.ProcessParts | internal/app/pdf_usecase.go:52-72 | the loop's result and final fields are those of the part loop followed by the HTML requirement and the stylesheet default |
| PdfUseCase.RunInWorkspace | internal/app/pdf_usecase.go:20-41 | with the workspace created, the result, the render request and the output are those of the use case |
| PdfUseCase.GeneratePDFToWriter | internal/app/pdf_usecase.go:13-42 | the result, the render request and the output are those of the use case; the workspace is created exactly when `MkdirTemp` succeeds, and a created workspace is removed on every path |
| PdfUseCase.Generate | internal/app/pdf_usecase.go:13-42 | `generatePDFToWriter` as a function of what it observes; stated by `RenderOnlyAfterIngest`, `RunnerFailureIsInternal` and `NoHtmlNoRender`, and computed by `GeneratePDFToWriter` |
| PdfUseCase.NoHtmlNoRender | internal/app/pdf_usecase.go:30-32 | once the workspace is created and opened, a stream whose parts all save, which ends in `io.EOF` and has no `html` part, gives 400 "No html file provided." and the renderer is never asked; a failing save or a read error is answered as `IngestSaveFailure` and `IngestReadError` state |
| PdfUseCase.RunnerFailureIsInternal | internal/app/pdf_usecase.go:37-39 | a renderer failure becomes 500 "PDF generation failed." with the renderer's error as its cause; what the renderer wrote stays written |
| PdfUseCase.RenderOnlyAfterIngest | internal/app/pdf_usecase.go:26-37 | the renderer is asked exactly when the workspace was created and opened and ingestion succeeded; it then gets the workspace, a non-empty HTML file and a non-empty stylesheet |
| PdfUseCase.DefaultStylesheetIsBound | internal/app/pdf_usecase.go:67-69 | without a `css` part, the `--stylesheet` argument is exactly the path where the sandbox binds the default stylesheet |
| PdfUseCase.CssOnlySample | internal/app/pdf_usecase_test.go:14-28 | a stream with only a `css` part gives 400 "No html file provided." and the renderer is not asked |
| PdfUseCase.HtmlOnlySample | internal/app/pdf_usecase_test.go:30-42 | a stream with only an `html` part renders that file with the default stylesheet `/defaults/default.css` |
| PdfUseCase.AttachmentSample | internal/app/pdf_usecase_test.go:44-63 | with `attachment.invoice` and `file.terms` parts in either order, the renderer gets both names, in arrival order |
| PdfUseCase.RunnerErrorSample | internal/app/pdf_usecase_test.go:65-80 | a failing renderer gives 500 "PDF generation failed." with the renderer's error as the cause |
| GoStrings.IsSpace | internal/app/service.go:114 | `unicode.IsSpace`, which `strings.TrimSpace` and `strings.Fields` (internal/app/auth_oidc.go:93) rely on: it holds exactly for the Latin-1 space characters (tab, newline, vertical tab, form feed, carriage return, space, U+0085, U+00A0) and the other characters with the Unicode White_Space property |
| GoStrings.HasPrefix | internal/app/pdf_usecase.go:91 | `strings.HasPrefix(s, p)`; stated by `HasPrefixConcat` |
| GoStrings.HasPrefixConcat | internal/app/pdf_usecase.go:91 | `HasPrefix(s, p)` holds exactly when `s` is `p` followed by the rest of `s`, and `p + t` always begins with `p` |
| GoStrings.TrimRight | internal/app/auth_oidc.go:97 | `strings.TrimRight` with a one-character cut set; stated by `TrimRightSpec` |
| GoStrings.TrimRightSpec | internal/app/auth_oidc.go:97 | `TrimRight(s, c)` is a prefix of `s` with only `c` removed after it, and does not end in `c` |
| GoStrings.TrimSpace | internal/app/service.go:114 | the result is a slice of the input with only white space around it, and neither starts nor ends with white space |
| GoStrings.TrimSpaceTrimmed | internal/app/service.go:114 | a string with no white space at either end is unchanged |
| GoStrings.SplitAtFirstSpace | internal/app/service.go:110 | one piece exactly when there is no space; otherwise the input is the first piece, a space, then the second piece, and the first piece has no space |
| GoStrings.Fields | internal/app/auth_oidc.go:93 | `strings.Fields`; stated by `FieldsExact` and `FieldsAreWords` |
| GoStrings.FieldsExact | internal/app/auth_oidc.go:93 | a word is among `strings.Fields(s)` exactly when it stands in `s` as a maximal run of non-white-space |
| GoStrings.FieldsAreWords | internal/app/auth_oidc.go:93 | every field is non-empty and holds no white space |
| GoStrings.EqualFold | internal/app/service.go:111 | `strings.EqualFold` for ASCII letters; stated by `ParseBearerCaseInsensitive` and `ParseBearerRoundTrip` |
| Service.SplitBearer | internal/app/service.go:110-111 | splitting at the first space gives the scheme `Bearer` (in any case) exactly when the header starts with `Bearer` and a space; the remainder is what follows that space |
| Service.ParseBearerToken | internal/app/service.go:106-119 | a token returned is non-empty and has no surrounding white space |
| Service.ParseBearerTokenMeaning | internal/app/service.go:106-119 | an empty header is "missing authorization"; a header not starting with `Bearer` and a space is "invalid authorization scheme"; otherwise the token is the trimmed rest, and is "missing token" when that is empty |
| Service.ParseBearerRoundTrip | internal/app/service.go:110-118 | `Bearer <t>`, with the scheme in any case, parses back to `t` for any non-empty token without surrounding white space |
| Service.ParseBearerCaseInsensitive | internal/app/service.go:111 | the scheme word is compared without regard to case |
| Service.HttpError | internal/app/errors.go:83-90 | `http.Error` on a response not yet committed: the status and body from `ReplyFor`, with the plain-text content type and `nosniff` set over the headers already present; the committed case is handled by `Deliver` |
| Service.RequestCheck | internal/app/service.go:76-94 | the handler's checks before rendering: method, media type, multipart reader; stated by `MethodCheckedFirst` and `MultipartRequired` |
| Service.Deliver | internal/app/service.go:96-104 | the PDF headers, the written bytes, and the error reply for a failed generation; stated by `RenderSuccess` and `RenderFailure` |
| Service.RenderPDF | internal/app/service.go:76-104 | `renderPDF`; stated by `RenderReplies`, `RenderSuccess` and `RenderFailure` |
| Service.RequireAuth | internal/app/service.go:54-73 | `requireAuth`; stated by `MalformedHeaderUnauthorized`, `DenialReply`, `ValidatorDenial`, `RenderOnlyWhenAccepted` and `AcceptedReachesRender` |
| Service.ServeHTTP | internal/app/service.go:42-52 | `Routes`: `/healthcheck` to `healthcheck`, every other path through the gate to `renderPDF`; stated by `HealthcheckWithoutAuth` and `EndToEnd` |
| ServiceProperties.HealthcheckWithoutAuth | internal/app/service.go:42-52 | `/healthcheck` answers 200 "OK" for any method and credentials, without calling the validator or the renderer |
| ServiceProperties.MalformedHeaderUnauthorized | internal/app/service.go:56-60 | a malformed header is 401 "Unauthorized" and the validator is not called |
| ServiceProperties.DenialReply | internal/app/service.go:62-70 | a validator error is 403 "Forbidden" when `ErrForbidden` is on its chain, and 401 "Unauthorized" otherwise |
| ServiceProperties.ValidatorDenial | internal/app/service.go:62-70 | a validator error, on any path but the healthcheck, is denied that way and nothing is rendered |
| ServiceProperties.RenderOnlyWhenAccepted | internal/app/service.go:54-73 | the renderer is reached only off the healthcheck, with a well-formed header whose token the validator accepted |
| ServiceProperties.AcceptedReachesRender | internal/app/service.go:72 | once the token is accepted, the render handler alone decides the response |
| ServiceProperties.MethodCheckedFirst | internal/app/service.go:77-80 | any method other than POST is 405, whatever the content type |
| ServiceProperties.MultipartRequired | internal/app/service.go:82-94 | an unparsable content type, a media type other than `multipart/form-data`, or a failed multipart reader gives 400 "Multipart request required." |
| ServiceProperties.RenderSuccess | internal/app/service.go:96-104 | a successful render answers 200 with `application/pdf`, `attachment; filename="output.pdf"` and exactly the renderer's bytes |
| ServiceProperties.RenderFailure | internal/app/service.go:99-103 | a renderer failure after the first byte keeps the committed 200 and PDF headers, and appends the error message to the truncated body; before the first byte it is a 500 with the error content type |
| ServiceProperties.RenderReplies | internal/app/service.go:76-104 | past the gate the status is 200, 400, 405 or 500, and every 500 carries one of the two fixed messages, never a cause |
| ServiceProperties.SampleIngest | internal/app/service_test.go:78-104 | the test's `html`, `css` and `asset.logo` file parts, in any order, followed by its `attachment.test` part, ingest to `html.txt`, `css.txt` and the one attachment `notes.txt` |
| ServiceProperties.EndToEnd | internal/app/service_test.go:78-104 | a bearer token the validator accepts, the test's multipart POST and a renderer writing `%PDF-1.4` give 200, the PDF headers and exactly those bytes; the renderer is asked for `html.txt`, `css.txt` and the one attachment |
| ServiceProperties.ForbiddenExactlyForMissingScope | internal/app/service.go:62-70 | with the OIDC validator behind the gate, 403 is returned exactly when the token is genuine, for this audience and issuer, and lacks the required scope; 401 exactly when validation fails in any other way |

## Left out

- The multipart parser (`mime.ParseMediaType`, `MultipartReader`, `NextPart`) is not modelled. Its outcomes enter as request fields: the parsed media type or its error, the reader error, and the parts and how the stream ends.
- `savePart` is not modelled, nor are the files it writes or the confinement of `os.Root` to the workspace. Each part carries only the outcome of saving it. The one fact about that outcome the model keeps is that a part without a file name always fails to save; the error `os.Root` gives then is whatever the part carries.
- `http.MaxBytesReader` and the size limit are not modelled. An over-limit body is either a save error of the part being copied or a read error ending the stream. `NewRequestTooLargeError` is modelled, but nothing produces it.
- `ServiceProperties.RenderReplies` and `ServiceProperties.ForbiddenExactlyForMissingScope` assume the multipart reader's errors are not `*AppError`. Such an error would pass through unchanged.
- `ServiceProperties.ForbiddenExactlyForMissingScope` assumes the JWT library's errors do not wrap `ErrForbidden`.
- The request timeout, context cancellation and killing the subprocess are not modelled.
- The subprocess's output is modelled as the whole byte sequence it wrote, not as a stream of writes.
- `ServeMux` path cleaning and redirects are not modelled. Routing compares the request path with `/healthcheck` exactly.
- Content sniffing, `Content-Length` handling, and `net/http`'s log line for a superfluous `WriteHeader` are not modelled. Headers are modelled only for `Content-Type`, `Content-Disposition` and `X-Content-Type-Options`.
- The service's logger and tracing span are not modelled in the handlers. `AppErrors.WriteHTTPError` returns the log record and the span status instead of emitting them.
- `writeHTTPError` is declared with a leading context parameter (internal/app/errors.go:61), but the handlers call it with four arguments. The model keeps only the mapping from error to reply and record.
- JWT decoding, signature verification and the audience check are not modelled; they are the `JwtLibrary` parameter. The key-set fetch is a function from URI to outcome.
- `OidcAuth.Quote` escapes only `"` and `\`. `%q` also escapes control and non-printable characters.
- Strings are sequences of characters, one per rune. Go strings are byte sequences that need not be valid UTF-8, and the model does not represent invalid bytes in header values, claims or file names.
- `AppErrors.Is`: errors are compared by value, not by identity, so two distinct `errors.New` values with the same text count as equal. The service only compares against the sentinels `io.EOF` and `ErrForbidden`, for which the two comparisons agree.
- `GoStrings.EqualFold` folds ASCII letters only. No other rune folds onto the letters of `Bearer`, so the scheme comparison is unaffected.
- Startup, configuration, observability and telemetry set-up (cmd/pdfservice/main.go, internal/app/observability.go, internal/app/otel.go) are not part of this model.
