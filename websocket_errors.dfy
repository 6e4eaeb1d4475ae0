/**
 * The WebSocket lambda errors of packages/sessions/lambdas/websocket/websocket_errors.py:
 * status codes, response bodies `{"error": {...}}` and `create_error_body`.
 *
 * JSON values of the `extra` dictionary are modelled as strings.
 */
module WebSocketErrors {
  import opened Wrappers

  datatype WebSocketError =
    | ValidationError
    | SessionNotFound(sessionId: string)
    | UnexpectedError

  /** An exception handed to `create_error_body`. */
  datatype Raised = WebSocket(error: WebSocketError) | Other(description: string)

  datatype ErrorBody = ErrorBody(error: map<string, string>)

  const ServerErrorMessage := "A server error occurred while processing a WebSocket request."

  function StatusCode(e: WebSocketError): int {
    match e
    case SessionNotFound(_) => 404
    case _ => 500
  }

  /** ValidationError's `to_response(extra, reason)`: `reason` is accepted and unused. */
  function ValidationResponse(extra: Option<map<string, string>>, reason: Option<string>): ErrorBody {
    ErrorBody(map["message" := ServerErrorMessage] + extra.GetOr(map[]))
  }

  function ToResponse(e: WebSocketError, extra: Option<map<string, string>>): ErrorBody {
    match e
    case ValidationError => ValidationResponse(extra, None)
    case SessionNotFound(id) =>
      ErrorBody(map["message" := "Session not found. Try logging out and logging back in.",
                    "sessionId" := id] + extra.GetOr(map[]))
    case UnexpectedError => ErrorBody(map["message" := ServerErrorMessage] + extra.GetOr(map[]))
  }

  /** `create_error_body`: no `extra` is passed. */
  function CreateErrorBody(error: Raised): ErrorBody {
    match error
    case WebSocket(e) => ToResponse(e, None)
    case Other(_) => ToResponse(UnexpectedError, None)
  }

  // ---------------------------------------------------------------- properties

  /** SessionNotFound is 404 and names the session next to its message; ValidationError and
      UnexpectedError are both 500 and give the same body whatever the reason. */
  lemma Responses(id: string, extra: Option<map<string, string>>, reason: Option<string>)
    ensures StatusCode(SessionNotFound(id)) == 404
    ensures var x := extra.GetOr(map[]);
      var body := ToResponse(SessionNotFound(id), extra).error;
      body.Keys == x.Keys + {"message", "sessionId"} &&
      body["sessionId"] == (if "sessionId" in x then x["sessionId"] else id)
    ensures StatusCode(ValidationError) == StatusCode(UnexpectedError) == 500
    ensures ValidationResponse(extra, reason) == ToResponse(ValidationError, extra)
                                              == ToResponse(UnexpectedError, extra)
  {
  }

  /** A WebSocket error gives its own response; any other exception the UnexpectedError
      response, which is also ValidationError's. */
  lemma CreateErrorBodyCases(error: Raised)
    ensures error.WebSocket? ==> CreateErrorBody(error) == ToResponse(error.error, None)
    ensures error.Other? ==>
      CreateErrorBody(error) == ToResponse(ValidationError, None) &&
      CreateErrorBody(error).error == map["message" := ServerErrorMessage]
  {
  }
}
