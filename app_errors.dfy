/** The service's classified errors (`AppError`), Go's error chains
    (`Unwrap`, `errors.Is`, `errors.As`) and the translation of an error into
    an HTTP reply and a log record (`writeHTTPError`). */
module AppErrors {
  import opened Wrappers

  const StatusOK := 200
  const StatusBadRequest := 400
  const StatusUnauthorized := 401
  const StatusForbidden := 403
  const StatusMethodNotAllowed := 405
  const StatusRequestEntityTooLarge := 413
  const StatusInternalServerError := 500

  /** The generic reply text for anything that is not a classified error. */
  const GenericFailureMessage := "Failed to process request."

  /** The Go error values that flow through the core. */
  datatype Err =
    | App(app: AppError)                                   // a *AppError
    | Plain(text: string)                                  // errors.New(text)
    | Wrapped(prefix: string, inner: Err, suffix: string)  // fmt.Errorf with one %w verb
    | Eof                                                  // io.EOF
    | Forbidden                                            // the ErrForbidden sentinel

  /** An error classified with an HTTP status, a caller-facing message and an
      optional cause kept for diagnostics. */
  datatype AppError = AppError(statusCode: int, message: string, cause: Option<Err>)

  /** `err.Error()`. */
  function Text(e: Err): string {
    match e
    case App(a) => a.message + (match a.cause case Some(c) => ": " + Text(c) case None => "")
    case Plain(t) => t
    case Wrapped(p, inner, s) => p + Text(inner) + s
    case Eof => "EOF"
    case Forbidden => "forbidden"
  }

  /** `(*AppError).Error`, which also accepts a nil receiver. */
  function ErrorText(e: Option<AppError>): (s: string) {
    match e
    case None => ""
    case Some(a) => Text(App(a))
  }

  /** `(*AppError).Unwrap`, which also accepts a nil receiver. */
  function Unwrap(e: Option<AppError>): (c: Option<Err>) {
    match e
    case None => None
    case Some(a) => a.cause
  }

  /** The text of an `AppError` is its message, followed by the text of what
      `Unwrap` gives when that is not nil; a nil receiver gives "". */
  lemma ErrorTextUnwrap(e: Option<AppError>)
    ensures e.None? ==> ErrorText(e) == "" && Unwrap(e).None?
    ensures e.Some? && Unwrap(e).None? ==> ErrorText(e) == e.value.message
    ensures e.Some? && Unwrap(e).Some? ==>
      ErrorText(e) == e.value.message + ": " + Text(Unwrap(e).value)
  {
  }

  /** The chain `errors.Is` and `errors.As` walk: the error, what it unwraps
      to, what that unwraps to, and so on. */
  function Chain(e: Err): (c: seq<Err>)
    ensures c != [] && c[0] == e
  {
    match e
    case App(a) => [e] + (match a.cause case Some(n) => Chain(n) case None => [])
    case Wrapped(_, inner, _) => [e] + Chain(inner)
    case _ => [e]
  }

  /** `errors.Is(e, target)` for a comparable target such as a sentinel. */
  predicate Is(e: Err, target: Err) {
    e == target ||
    match e
    case App(a) => a.cause.Some? && Is(a.cause.value, target)
    case Wrapped(_, inner, _) => Is(inner, target)
    case _ => false
  }

  /** `errors.As(e, &appErr)`: the first `*AppError` on the chain. */
  function As(e: Err): Option<AppError> {
    match e
    case App(a) => Some(a)
    case Wrapped(_, inner, _) => As(inner)
    case _ => None
  }

  /** `errors.Is` holds exactly when the target is on the chain. */
  lemma {:induction false} IsOnChain(e: Err, target: Err)
    ensures Is(e, target) <==> target in Chain(e)
  {
    match e
    case App(a) =>
      if a.cause.Some? { IsOnChain(a.cause.value, target); }
    case Wrapped(_, inner, _) =>
      IsOnChain(inner, target);
    case _ =>
  }

  /** `errors.As` finds the first classified error on the chain, and finds
      nothing exactly when the chain holds none. */
  lemma {:induction false} AsFirstOnChain(e: Err)
    ensures As(e).None? <==> forall k :: 0 <= k < |Chain(e)| ==> !Chain(e)[k].App?
    ensures As(e).Some? ==> exists k :: 0 <= k < |Chain(e)| && Chain(e)[k] == App(As(e).value) &&
                                        forall j :: 0 <= j < k ==> !Chain(e)[j].App?
  {
    match e
    case App(a) =>
      assert Chain(e)[0] == App(a);
    case Wrapped(_, inner, _) =>
      AsFirstOnChain(inner);
      assert forall k :: 1 <= k < |Chain(e)| ==> Chain(e)[k] == Chain(inner)[k - 1];
      if As(e).Some? {
        var k :| 0 <= k < |Chain(inner)| && Chain(inner)[k] == App(As(inner).value) &&
                 forall j :: 0 <= j < k ==> !Chain(inner)[j].App?;
        assert Chain(e)[k + 1] == App(As(e).value);
      } else {
        forall k | 0 <= k < |Chain(e)| ensures !Chain(e)[k].App? {
          if k > 0 { assert Chain(e)[k] == Chain(inner)[k - 1]; }
        }
      }
    case _ =>
  }

  /** `NewBadRequestError`. */
  function NewBadRequestError(message: string, cause: Option<Err>): (e: Err)
    ensures e.App? && e.app.statusCode == 400 && e.app.message == message && e.app.cause == cause
  {
    App(AppError(StatusBadRequest, message, cause))
  }

  /** `NewRequestTooLargeError` (defined, though nothing in the service produces it). */
  function NewRequestTooLargeError(message: string, cause: Option<Err>): (e: Err)
    ensures e.App? && e.app.statusCode == 413 && e.app.message == message && e.app.cause == cause
  {
    App(AppError(StatusRequestEntityTooLarge, message, cause))
  }

  /** `NewUnauthorizedError`. */
  function NewUnauthorizedError(message: string, cause: Option<Err>): (e: Err)
    ensures e.App? && e.app.statusCode == 401 && e.app.message == message && e.app.cause == cause
  {
    App(AppError(StatusUnauthorized, message, cause))
  }

  /** `NewForbiddenError`. */
  function NewForbiddenError(message: string, cause: Option<Err>): (e: Err)
    ensures e.App? && e.app.statusCode == 403 && e.app.message == message && e.app.cause == cause
  {
    App(AppError(StatusForbidden, message, cause))
  }

  /** `NewMethodNotAllowedError`. */
  function NewMethodNotAllowedError(message: string, cause: Option<Err>): (e: Err)
    ensures e.App? && e.app.statusCode == 405 && e.app.message == message && e.app.cause == cause
  {
    App(AppError(StatusMethodNotAllowed, message, cause))
  }

  /** `NewInternalError`. */
  function NewInternalError(message: string, cause: Option<Err>): (e: Err)
    ensures e.App? && e.app.statusCode == 500 && e.app.message == message && e.app.cause == cause
  {
    App(AppError(StatusInternalServerError, message, cause))
  }

  /** Each constructor's error is answered with its own status and its
      message, whatever its cause, and its text is the message followed by
      the cause's text. */
  lemma ConstructorReplies(message: string, cause: Option<Err>)
    ensures ReplyFor(NewBadRequestError(message, cause)) == ErrorReply(400, message + "\n")
    ensures ReplyFor(NewRequestTooLargeError(message, cause)) == ErrorReply(413, message + "\n")
    ensures ReplyFor(NewUnauthorizedError(message, cause)) == ErrorReply(401, message + "\n")
    ensures ReplyFor(NewForbiddenError(message, cause)) == ErrorReply(403, message + "\n")
    ensures ReplyFor(NewMethodNotAllowedError(message, cause)) == ErrorReply(405, message + "\n")
    ensures ReplyFor(NewInternalError(message, cause)) == ErrorReply(500, message + "\n")
    ensures var suffix := if cause.Some? then ": " + Text(cause.value) else "";
      Text(NewBadRequestError(message, cause)) == message + suffix &&
      Text(NewRequestTooLargeError(message, cause)) == message + suffix &&
      Text(NewUnauthorizedError(message, cause)) == message + suffix &&
      Text(NewForbiddenError(message, cause)) == message + suffix &&
      Text(NewMethodNotAllowedError(message, cause)) == message + suffix &&
      Text(NewInternalError(message, cause)) == message + suffix
  {
  }

  /** The reply depends on the chain only through its first classified
      error; the cause of that error never reaches the caller. */
  lemma ReplyFromChain(err: Err)
    ensures (forall k :: 0 <= k < |Chain(err)| ==> !Chain(err)[k].App?) ==>
      ReplyFor(err) == ErrorReply(StatusInternalServerError, GenericFailureMessage + "\n")
    ensures forall k, a :: 0 <= k < |Chain(err)| && Chain(err)[k] == App(a) &&
                           (forall j :: 0 <= j < k ==> !Chain(err)[j].App?) ==>
      ReplyFor(err) == ErrorReply(a.statusCode, a.message + "\n")
  {
    AsFirstOnChain(err);
    forall k, a | 0 <= k < |Chain(err)| && Chain(err)[k] == App(a) &&
                  (forall j :: 0 <= j < k ==> !Chain(err)[j].App?)
      ensures As(err) == Some(a)
    {
      assert Chain(err)[k].App?;
      var k' :| 0 <= k' < |Chain(err)| && Chain(err)[k'] == App(As(err).value) &&
                forall j :: 0 <= j < k' ==> !Chain(err)[j].App?;
      assert !(k < k') && !(k' < k);
    }
  }

  /** A status line and body written by `http.Error(w, message, code)`, which
      ends the body with a newline. */
  datatype ErrorReply = ErrorReply(status: int, body: string)

  datatype Level = Warn | Error

  datatype AttrValue = StringValue(s: string) | IntValue(i: int) | ErrorValue(e: Err)

  datatype Attr = Attr(key: string, value: AttrValue)

  /** One structured log call: its level, its message and its key/value pairs. */
  datatype LogRecord = LogRecord(level: Level, msg: string, attrs: seq<Attr>)

  /** The request fields that `writeHTTPError` logs. */
  datatype RequestInfo = RequestInfo(httpMethod: string, path: string, remoteAddr: string)

  /** The reply `writeHTTPError` sends for `err`: a classified error on the
      chain gives its own status and message, anything else a generic 500. */
  function ReplyFor(err: Err): ErrorReply {
    match As(err)
    case Some(a) => ErrorReply(a.statusCode, a.message + "\n")
    case None => ErrorReply(StatusInternalServerError, GenericFailureMessage + "\n")
  }

  /** Replacing the cause of a classified error, or wrapping an error with
      more context, never changes the reply. */
  lemma ReplyIgnoresCauseAndContext(status: int, message: string, c1: Option<Err>, c2: Option<Err>,
                                    prefix: string, e: Err, suffix: string)
    ensures ReplyFor(App(AppError(status, message, c1))) == ReplyFor(App(AppError(status, message, c2)))
    ensures ReplyFor(Wrapped(prefix, e, suffix)) == ReplyFor(e)
  {
  }

  /** `writeHTTPError`: builds the log attributes, records the error text as
      the span status, logs, and replies. */
  method WriteHTTPError(r: RequestInfo, err: Err) returns (reply: ErrorReply, record: LogRecord, spanStatus: string)
    ensures reply == ReplyFor(err)
    ensures record.level == (if reply.status < 500 then Warn else Error)
    ensures |record.attrs| == if As(err).Some? then 6 else 5
    ensures record.attrs[..4] == [Attr("method", StringValue(r.httpMethod)), Attr("path", StringValue(r.path)),
                                  Attr("remote_addr", StringValue(r.remoteAddr)), Attr("cause", ErrorValue(err))]
    ensures record.attrs[4] == Attr("status", IntValue(reply.status))
    ensures As(err).Some? ==> record.msg == "request failed" && record.attrs[5] == Attr("message", StringValue(As(err).value.message))
    ensures As(err).None? ==> record.msg == "request failed with unexpected error type"
    ensures spanStatus == Text(err)
  {
    var attributes := [
      Attr("method", StringValue(r.httpMethod)),
      Attr("path", StringValue(r.path)),
      Attr("remote_addr", StringValue(r.remoteAddr)),
      Attr("cause", ErrorValue(err))
    ];
    spanStatus := Text(err);
    var appErr := As(err);
    if appErr.Some? {
      attributes := attributes + [Attr("status", IntValue(appErr.value.statusCode)),
                                  Attr("message", StringValue(appErr.value.message))];
      var level := Error;
      if appErr.value.statusCode < 500 {
        level := Warn;
      }
      record := LogRecord(level, "request failed", attributes);
      reply := ErrorReply(appErr.value.statusCode, appErr.value.message + "\n");
      return;
    }
    attributes := attributes + [Attr("status", IntValue(StatusInternalServerError))];
    record := LogRecord(Error, "request failed with unexpected error type", attributes);
    reply := ErrorReply(StatusInternalServerError, GenericFailureMessage + "\n");
  }
}
