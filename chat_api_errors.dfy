/**
 * The Chat API errors of packages/sessions/lambdas/chat_api/chat_api_errors.py: each
 * error's HTTP status code, error code and response body `{"error": {...}}`, and
 * `create_error_body`, which turns any exception into such a body.
 *
 * JSON values of the `extra` dictionary are modelled as strings.
 */
module ChatApiErrors {
  import opened Wrappers

  /** The ChatAPIError subclasses with the fields their responses use. */
  datatype ChatApiError =
    | ValidationError(reason: Option<string>)
    | SessionNotFoundError(sessionId: string)
    | SessionCreationError
    | EventBridgeError
    | DynamoDBError(operation: string)
    | UnauthorizedError
    | UnexpectedError

  /** An exception handed to `create_error_body`. */
  datatype Raised = ChatApi(error: ChatApiError) | Other(description: string)

  /** The response body: the single key "error" and the object under it. */
  datatype ErrorBody = ErrorBody(error: map<string, string>)

  function StatusCode(e: ChatApiError): int {
    match e
    case ValidationError(_) => 400
    case SessionNotFoundError(_) => 404
    case UnauthorizedError => 401
    case _ => 500
  }

  /** `self.__class__.__name__`. */
  function ErrorCode(e: ChatApiError): string {
    match e
    case ValidationError(_) => "ValidationError"
    case SessionNotFoundError(_) => "SessionNotFoundError"
    case SessionCreationError => "SessionCreationError"
    case EventBridgeError => "EventBridgeError"
    case DynamoDBError(_) => "DynamoDBError"
    case UnauthorizedError => "UnauthorizedError"
    case UnexpectedError => "UnexpectedError"
  }

  /** The "message" of the response before `extra` is merged in. */
  function Message(e: ChatApiError): string {
    match e
    case ValidationError(reason) =>
      if reason.Some? && reason.value != "" then "Invalid request. Reason: " + reason.value
      else "Invalid request."
    case SessionNotFoundError(_) => "Could not find session. Try again with a new session."
    case SessionCreationError => "Could not create session. Try again later."
    case EventBridgeError => "Internal server error."
    case DynamoDBError(_) => "Internal server error."
    case UnauthorizedError => "Unauthorized request. Try signing out and signing in again."
    case UnexpectedError => "An unexpected error occurred."
  }

  /** `to_response(extra)`: `response["error"].update(extra)` when `extra` is truthy; an
      empty or absent `extra` adds nothing, so both are the union with `extra`. */
  function ToResponse(e: ChatApiError, extra: Option<map<string, string>>): ErrorBody {
    ErrorBody(map["message" := Message(e)] + extra.GetOr(map[]))
  }

  /** `create_error_body`. */
  function CreateErrorBody(error: Raised, extra: Option<map<string, string>>): ErrorBody {
    match error
    case ChatApi(e) => ToResponse(e, extra)
    case Other(_) => ToResponse(UnexpectedError, extra)
  }

  // ---------------------------------------------------------------- properties

  /** ValidationError is 400, SessionNotFoundError 404, UnauthorizedError 401, and every
      other error 500. */
  lemma StatusCodes(e: ChatApiError)
    ensures StatusCode(e) == 400 <==> e.ValidationError?
    ensures StatusCode(e) == 404 <==> e.SessionNotFoundError?
    ensures StatusCode(e) == 401 <==> e.UnauthorizedError?
    ensures StatusCode(e) == 500 <==> !(e.ValidationError? || e.SessionNotFoundError? || e.UnauthorizedError?)
  {
  }

  /** A ValidationError names its reason exactly when the reason is non-empty. */
  lemma ValidationMessage(reason: Option<string>)
    ensures reason.Some? && reason.value != "" ==>
      Message(ValidationError(reason)) == "Invalid request. Reason: " + reason.value
    ensures reason.None? || reason.value == "" ==> Message(ValidationError(reason)) == "Invalid request."
  {
  }

  /** The "error" object holds every key of `extra` with its value and, besides, only
      "message"; `extra` may override the message. */
  lemma ExtraMerged(e: ChatApiError, extra: Option<map<string, string>>)
    ensures var body := ToResponse(e, extra).error;
      var x := extra.GetOr(map[]);
      body.Keys == x.Keys + {"message"} &&
      (forall k :: k in x ==> body[k] == x[k]) &&
      body["message"] == (if "message" in x then x["message"] else Message(e))
  {
  }

  /** A Chat API error gives its own response; any other exception the UnexpectedError
      response, "An unexpected error occurred." with `extra` merged in. */
  lemma CreateErrorBodyCases(error: Raised, extra: Option<map<string, string>>)
    ensures error.ChatApi? ==> CreateErrorBody(error, extra) == ToResponse(error.error, extra)
    ensures error.Other? ==>
      var x := extra.GetOr(map[]);
      CreateErrorBody(error, extra).error["message"] ==
        (if "message" in x then x["message"] else "An unexpected error occurred.")
  {
    ExtraMerged(UnexpectedError, extra);
  }

  /** The error code names the class, so different kinds of error have different codes. */
  lemma ErrorCodesDistinct(a: ChatApiError, b: ChatApiError)
    ensures ErrorCode(a) == ErrorCode(b) <==> SameKind(a, b)
  {
  }

  predicate SameKind(a: ChatApiError, b: ChatApiError) {
    match (a, b)
    case (ValidationError(_), ValidationError(_)) => true
    case (SessionNotFoundError(_), SessionNotFoundError(_)) => true
    case (SessionCreationError, SessionCreationError) => true
    case (EventBridgeError, EventBridgeError) => true
    case (DynamoDBError(_), DynamoDBError(_)) => true
    case (UnauthorizedError, UnauthorizedError) => true
    case (UnexpectedError, UnexpectedError) => true
    case _ => false
  }
}
