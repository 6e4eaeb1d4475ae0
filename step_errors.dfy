/**
 * The message-processing errors of packages/shared/lambda_layers/step_function_types/errors.py:
 * each error's status code, error code and the message it shows the user, and
 * `report_error`, which sends one such message over a WebSocket connection.
 *
 * The connection lookup `get_ws_connection_from_session` is the function parameter
 * `lookup`; sending is recorded rather than performed. A failing send is swallowed by the
 * source and changes nothing else, so it is not distinguished.
 */
module StepErrors {
  import opened Wrappers

  /** The MessagesError subclasses. */
  datatype MessagesError =
    | ValidationError
    | UnexpectedError
    | UnknownResourceType
    | GenericStreamingError
    | ThrottlingError
    | ConfigNotFound

  /** An exception handed to `report_error`: one of ours, or any other. */
  datatype Raised = Messages(error: MessagesError) | Other(description: string)

  /** The error message shown to the user (`ErrorMessage(content=ErrorContent(error=...))`). */
  datatype ErrorMessage = ErrorMessage(error: string)

  /** Every subclass passes `status_code=500`. */
  function StatusCode(e: MessagesError): int { 500 }

  /** `self.__class__.__name__`. */
  function ErrorCode(e: MessagesError): string {
    match e
    case ValidationError => "ValidationError"
    case UnexpectedError => "UnexpectedError"
    case UnknownResourceType => "UnknownResourceType"
    case GenericStreamingError => "GenericStreamingError"
    case ThrottlingError => "ThrottlingError"
    case ConfigNotFound => "ConfigNotFound"
  }

  /** `to_response()`. GenericStreamingError only defines a misspelled `to_resonse`, so its
      `to_response` is the abstract base method, which returns None. */
  function ToResponse(e: MessagesError): Option<ErrorMessage> {
    match e
    case ValidationError => Some(ErrorMessage("A server error occurred while processing the message."))
    case UnexpectedError => Some(ErrorMessage("An unexpected error occurred while processing a message."))
    case UnknownResourceType => Some(ErrorMessage("Internal server error occurred while processing message."))
    case GenericStreamingError => None
    case ThrottlingError => Some(ErrorMessage("Request was throttled due to too many requests. Please wait and try again."))
    case ConfigNotFound => Some(ErrorMessage("Internal server error occurred while processing message."))
  }

  /** The error actually reported: other exceptions are wrapped as UnexpectedError. */
  function Reported(error: Raised): (e: MessagesError)
    ensures error.Messages? ==> e == error.error
    ensures error.Other? ==> e == UnexpectedError
  {
    if error.Messages? then error.error else UnexpectedError
  }

  /** A WebSocket connection, known by an identifier. */
  datatype Connection = Connection(id: nat)

  /** What `get_ws_connection_from_session` does: returns a connection, returns None, or
      raises. */
  datatype Lookup = Found(connection: Connection) | NotFound | LookupRaised

  /** One `send_json` call. */
  datatype Send = Send(to: Connection, message: Option<ErrorMessage>)

  /** Python truthiness of the optional session id. */
  predicate HasSession(sessionId: Option<string>) { sessionId.Some? && sessionId.value != "" }

  /** `report_error`: whether a lookup was made and the sends performed. */
  method ReportError(error: Raised, wsConnect: Option<Connection>, sessionId: Option<string>,
                     lookup: string -> Lookup)
    returns (lookedUp: bool, sends: seq<Send>)
    ensures |sends| <= 1
    ensures lookedUp <==> wsConnect.None? && HasSession(sessionId)
    ensures wsConnect.None? && !HasSession(sessionId) ==> sends == []
    ensures wsConnect.Some? ==> sends == [Send(wsConnect.value, ToResponse(Reported(error)))]
    ensures lookedUp ==>
      sends == (if lookup(sessionId.value).Found?
                then [Send(lookup(sessionId.value).connection, ToResponse(Reported(error)))]
                else [])
  {
    lookedUp, sends := false, [];
    var connection := wsConnect;
    if connection.None? && !HasSession(sessionId) {
      return;
    }
    if connection.None? && HasSession(sessionId) {
      lookedUp := true;
      match lookup(sessionId.value) {
        case LookupRaised => return;
        case NotFound => connection := None;
        case Found(c) => connection := Some(c);
      }
    }
    var reported := if error.Messages? then error.error else UnexpectedError;
    if connection.None? {
      return;
    }
    sends := [Send(connection.value, ToResponse(reported))];
  }

  // ---------------------------------------------------------------- properties

  /** Every reported error has status 500, and every one but GenericStreamingError shows
      a message; an exception that is not a
      MessagesError is shown as "An unexpected error occurred while processing a message." */
  lemma ReportedMessages(error: Raised)
    ensures StatusCode(Reported(error)) == 500
    ensures ToResponse(Reported(error)).None? <==> error == Messages(GenericStreamingError)
    ensures error.Other? ==>
      ToResponse(Reported(error)) == Some(ErrorMessage("An unexpected error occurred while processing a message."))
  {
  }

  /** The error code names the class, so different errors have different codes. */
  lemma ErrorCodesDistinct(a: MessagesError, b: MessagesError)
    ensures ErrorCode(a) == ErrorCode(b) <==> a == b
  {
    if a != b {
      match a
      case ValidationError => assert ErrorCode(a)[0] == 'V';
      case UnexpectedError => assert ErrorCode(a)[..3] == "Une";
      case UnknownResourceType => assert ErrorCode(a)[..3] == "Unk";
      case GenericStreamingError => assert ErrorCode(a)[0] == 'G';
      case ThrottlingError => assert ErrorCode(a)[0] == 'T';
      case ConfigNotFound => assert ErrorCode(a)[0] == 'C';
    }
  }
}
