/** The API error type and the Express error middleware
    (src/middlewares/errorMiddleware.ts): `APIError` with its defaults, the
    404 handler for unknown routes, and the decision `errorHandler` makes
    about the status code, the message and the stack of a failed response. */
module ErrorMiddleware {
  import opened Wrappers
  import opened Constants
  import opened ApiTypes

  /** An `APIError`: a message, an HTTP status code, and whether the error is
      an expected (operational) one. */
  datatype ApiError = ApiError(message: string, statusCode: int, isOperational: bool)

  /** Whatever a `try` block can throw: an `APIError`, or any other `Error`
      with its message and, when it has one, its `code` property (the system
      error codes of Node's networking layer, such as `ENOTFOUND`). */
  datatype Thrown =
    | Api(error: ApiError)
    | Plain(message: string, code: Option<string>)

  /** `error.message` */
  function MessageOf(error: Thrown): string
  {
    match error
    case Api(e) => e.message
    case Plain(m, _) => m
  }

  /** `new APIError(message, statusCode?, isOperational?)`: an argument left
      out takes its default, status 500 and operational. */
  function NewApiError(message: string, statusCode: Option<int>, isOperational: Option<bool>): (e: ApiError)
    ensures e.message == message
    ensures statusCode.None? ==> e.statusCode == StatusInternalServerError
    ensures statusCode.Some? ==> e.statusCode == statusCode.value
    ensures e.isOperational <==> isOperational != Some(false)
  {
    ApiError(message,
      match statusCode case Some(s) => s case None => StatusInternalServerError,
      match isOperational case Some(b) => b case None => true)
  }

  /** `notFoundHandler`: the error it passes on for a request to an unknown
      route. */
  function NotFoundHandler(originalUrl: string): (e: ApiError)
    ensures e.statusCode == StatusNotFound && e.isOperational
    ensures e.message == "Route " + originalUrl + " not found"
  {
    NewApiError("Route " + originalUrl + " not found", Some(StatusNotFound), None)
  }

  /** The error codes that mean the upstream host could not be reached. */
  predicate IsUnreachable(error: Thrown)
  {
    error.Plain? && error.code.Some? && error.code.value in {"ENOTFOUND", "ECONNREFUSED"}
  }

  /** The status `errorHandler` answers with: 503 when the upstream could not
      be reached, else the status of an `APIError`, else 500. */
  function ResponseStatus(error: Thrown): int
  {
    if IsUnreachable(error) then StatusServiceUnavailable
    else if error.Api? then error.error.statusCode
    else StatusInternalServerError
  }

  /** The message `errorHandler` answers with. */
  function ResponseMessage(error: Thrown): string
  {
    if IsUnreachable(error) then ExternalServiceUnavailable else MessageOf(error)
  }

  /** `errorHandler`: the status and the JSON body of the response to a thrown
      error. `stack` is the error's stack trace and `nodeEnv` the value of
      `NODE_ENV`. The locals start at 500 and the error's message and are
      overwritten in turn, as the handler does. */
  method ErrorHandler(error: Thrown, stack: string, nodeEnv: Option<string>)
      returns (statusCode: int, body: ApiResponse<()>)
    ensures statusCode == ResponseStatus(error)
    ensures WellFormed(body) && !body.success && body.data.None?
    ensures body.error.Some? && body.error.value.message == ResponseMessage(error)
    ensures body.error.value.stack.Some? <==> nodeEnv == Some("development")
    ensures body.error.value.stack.Some? ==> body.error.value.stack.value == stack
  {
    statusCode := StatusInternalServerError;
    var message := MessageOf(error);
    if error.Api? {
      statusCode := error.error.statusCode;
    }
    if error.Plain? && error.code.Some? {
      if error.code.value == "ENOTFOUND" || error.code.value == "ECONNREFUSED" {
        statusCode := StatusServiceUnavailable;
        message := ExternalServiceUnavailable;
      }
    }
    var development := nodeEnv == Some("development");
    body := ApiResponse(false, None, Some(ErrorInfo(message, if development then Some(stack) else None)));
  }

  /** An unknown route, passed through `notFoundHandler` and then
      `errorHandler`, is answered with 404 and the route in the message. */
  method HandleUnknownRoute(originalUrl: string, stack: string, nodeEnv: Option<string>)
      returns (statusCode: int, body: ApiResponse<()>)
    ensures statusCode == StatusNotFound
    ensures !body.success && body.error.Some?
    ensures body.error.value.message == "Route " + originalUrl + " not found"
  {
    var e := NotFoundHandler(originalUrl);
    statusCode, body := ErrorHandler(Api(e), stack, nodeEnv);
  }

  /** An `APIError` is answered with its own status and message: an
      `APIError` has no `code`, so the 503 override never applies to it. */
  lemma ApiErrorKeepsStatusAndMessage(e: ApiError)
    ensures ResponseStatus(Api(e)) == e.statusCode
    ensures ResponseMessage(Api(e)) == e.message
  {
  }

  /** The answer is 503 exactly for an unreachable upstream, unless an
      `APIError` itself carries 503. */
  lemma ServiceUnavailableIff(error: Thrown)
    requires !(error.Api? && error.error.statusCode == StatusServiceUnavailable)
    ensures ResponseStatus(error) == StatusServiceUnavailable <==>
      error.Plain? && (error.code == Some("ENOTFOUND") || error.code == Some("ECONNREFUSED"))
  {
  }

  /** Any other error without a known code becomes a 500 carrying its own
      message. */
  lemma PlainErrorIsInternal(message: string, code: Option<string>)
    requires code != Some("ENOTFOUND") && code != Some("ECONNREFUSED")
    ensures ResponseStatus(Plain(message, code)) == StatusInternalServerError
    ensures ResponseMessage(Plain(message, code)) == message
  {
  }
}
