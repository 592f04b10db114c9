/**
 * The exception handler (backend/santuario/src/main/java/com/zoo/santuario/config/GlobalExceptionHandler.java):
 * which status and error label each exception kind is answered with, and what the front end's
 * client makes of that answer.
 */
module ExceptionHandler {
  import opened Wrappers
  import opened Entities
  import ApiClient

  /** The `ErrorResponseDTO` sent back. */
  datatype ErrorResponse = ErrorResponse(timestamp: string, status: int, error: string, message: string, path: string)

  /** The HTTP answer: its status and its body. */
  datatype Reply = Reply(status: int, body: ErrorResponse)

  /** The reason phrase of the three statuses the handler uses. */
  function ReasonPhrase(status: int): string
  {
    if status == 400 then "Bad Request"
    else if status == 404 then "Not Found"
    else "Internal Server Error"
  }

  /** One handler: a body carrying the status, its label, the exception's message and the request. */
  function Answer(status: int, error: string, e: Exc, now: string, uri: string): Reply
  {
    Reply(status, ErrorResponse(now, status, error, e.message, "uri=" + uri))
  }

  /**
   * The handler Spring picks for `e`: the one for its own class, so the caretaker and capacity
   * exceptions go to their own handlers rather than to the one of their parent
   * `IllegalArgumentException`, and everything without a handler of its own to the catch-all.
   */
  function Handle(e: Exc, now: string, uri: string): (r: Reply)
    ensures r.body.status == r.status
    ensures r.body.message == e.message
    ensures r.body.timestamp == now && r.body.path == "uri=" + uri
    ensures r.body.error == ReasonPhrase(r.status)
    ensures r.status == 400 <==> e.IllegalArgument? || e.CaretakerRequired? || e.HabitatCapacityExceeded?
    ensures r.status == 404 <==> e.ResourceNotFound?
    ensures r.status == 500 <==> e.IllegalState? || e.OtherException?
  {
    match e
    case IllegalArgument(_) => Answer(400, "Bad Request", e, now, uri)
    case ResourceNotFound(_) => Answer(404, "Not Found", e, now, uri)
    case CaretakerRequired(_) => Answer(400, "Bad Request", e, now, uri)
    case HabitatCapacityExceeded(_) => Answer(400, "Bad Request", e, now, uri)
    case _ => Answer(500, "Internal Server Error", e, now, uri)
  }

  /** The body as JSON. */
  function ToJson(b: ErrorResponse): ApiClient.Json
  {
    ApiClient.JObj(map[
      "timestamp" := ApiClient.JStr(b.timestamp),
      "status" := ApiClient.JNum(b.status),
      "error" := ApiClient.JStr(b.error),
      "message" := ApiClient.JStr(b.message),
      "path" := ApiClient.JStr(b.path)])
  }

  /**
   * What the front end raises for an exception of the back end: always an `ApiError`. When the
   * message is not empty the record is the server's, field by field; an empty message makes the
   * client ignore the body and fall back to its own record of the response.
   */
  lemma ClientSeesServerError(e: Exc, now: string, uri: string, url: string, text: string, clientNow: string)
    requires now != ""
    ensures var reply := Handle(e, now, uri);
      var out := ApiClient.Expected(reply.status, url, ApiClient.Content(text, Some(ToJson(reply.body))), clientNow);
      && out.RaisedApiError?
      && (e.message != "" ==>
          && out.message == ApiClient.JStr(e.message)
          && out.record == ApiClient.ErrorRecord(ApiClient.JStr(now), ApiClient.JNum(reply.status),
               ApiClient.JStr(ReasonPhrase(reply.status)), ApiClient.JStr(e.message), ApiClient.JStr("uri=" + uri)))
      && (e.message == "" ==> out.record == ApiClient.DefaultError(reply.status, url, clientNow))
  {
    var reply := Handle(e, now, uri);
    var body := ToJson(reply.body);
    assert body.members["message"] == ApiClient.JStr(e.message);
    assert body.members["status"] == ApiClient.JNum(reply.status);
    assert body.members["error"] == ApiClient.JStr(ReasonPhrase(reply.status));
    assert body.members["path"] == ApiClient.JStr("uri=" + uri);
    assert body.members["timestamp"] == ApiClient.JStr(now);
  }
}
