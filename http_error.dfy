/**
 * HttpError: the one error value every failed request rejects with. Its
 * constructor classifies an Axios failure: a body in the server's error shape
 * is copied field by field; anything else (no response, an HTML error page, a
 * body of another shape) is described by a fixed table keyed on the HTTP status.
 */
module HttpErrors {
  import opened Wrappers
  import opened Js

  /** The response of a failed request, as far as the constructor reads it. */
  datatype HttpResponse = HttpResponse(status: int, data: Value)

  /** An AxiosError; `response` is absent when no response arrived (timeout, connection refused). */
  datatype AxiosFailure = AxiosFailure(response: Option<HttpResponse>)

  /**
   * An HttpError instance. Its four fields are readonly and assigned once, in the
   * constructor, so a datatype value models it exactly; the getters getStatusCode,
   * getMessage, getCode and getValidation are the selectors of these fields.
   * `code` is Undefined when it was never assigned.
   */
  datatype HttpError = HttpError(statusCode: int, message: string, code: Value, validation: Value)

  const BadRequestMessage := "외부서버 : 잘못된 요청입니다"
  const UnauthorizedMessage := "외부서버 : 인증이 필요합니다"
  const ForbiddenMessage := "외부서버 : 접근 권한이 없습니다"
  const NotFoundMessage := "외부서버 : 요청한 리소스를 찾을 수 없습니다"
  const InternalErrorMessage := "외부서버 : 서버 내부 오류가 발생했습니다"
  const BadGatewayMessage := "외부서버 : 서버에 연결할 수 없습니다"
  const UnavailableMessage := "외부서버 : 서비스를 사용할 수 없습니다"
  const NetworkMessage := "외부서버 ?: 네트워크 상태를 확인해주세요"

  /** `e.response?.data`. */
  function ResponseData(e: AxiosFailure): Value {
    if e.response.Some? then e.response.value.data else Undefined
  }

  /** `e.response?.status || 500`: a missing response and a status of 0 both read as 500. */
  function HttpStatus(e: AxiosFailure): int {
    if e.response.Some? && e.response.value.status != 0 then e.response.value.status else 500
  }

  /** The body has the server's error shape: a non-null object with a string `message` and a numeric `statusCode`. */
  function IsSpringErrorResponse(data: Value): (r: bool)
    // the typeof tests single out an object whose `message` is a string and whose `statusCode` is a number
    ensures r <==> data.Obj? && Prop(data, "message").Str? && Prop(data, "statusCode").Num?
  {
    Truthy(data) && TypeOf(data) == "object"
    && TypeOf(Prop(data, "message")) == "string"
    && TypeOf(Prop(data, "statusCode")) == "number"
  }

  /** The fixed status table used when the body is not in the server's error shape. */
  function DefaultMessage(httpStatus: int): (r: string)
    // every status outside the seven listed gets the network text, and only those do
    ensures r == NetworkMessage <==> httpStatus !in {400, 401, 403, 404, 500, 502, 503}
  {
    match httpStatus
    case 400 => BadRequestMessage
    case 401 => UnauthorizedMessage
    case 403 => ForbiddenMessage
    case 404 => NotFoundMessage
    case 500 => InternalErrorMessage
    case 502 => BadGatewayMessage
    case 503 => UnavailableMessage
    case _ => NetworkMessage
  }

  /** `new HttpError(e)`. */
  function NewHttpError(e: AxiosFailure): (r: HttpError)
    // the validation map is never absent: always a truthy value
    ensures Truthy(r.validation)
    // server path: statusCode, message and code copied verbatim, whatever the HTTP status was
    ensures var data := ResponseData(e);
      IsSpringErrorResponse(data) ==>
        && r.statusCode == Prop(data, "statusCode").n
        && r.message == Prop(data, "message").s
        && r.code == Prop(data, "code")
        && r.validation == (if Truthy(Prop(data, "validation")) then Prop(data, "validation") else Obj([]))
    // fallback path: the HTTP status (500 when there is none) and its table message, no validation, no code
    ensures !IsSpringErrorResponse(ResponseData(e)) ==>
      r == HttpError(HttpStatus(e), DefaultMessage(HttpStatus(e)), Undefined, Obj([]))
  {
    var data := ResponseData(e);
    var httpStatus := HttpStatus(e);
    if IsSpringErrorResponse(data) then
      HttpError(Prop(data, "statusCode").n, Prop(data, "message").s, Prop(data, "code"), Or(Prop(data, "validation"), Obj([])))
    else
      HttpError(httpStatus, DefaultMessage(httpStatus), Undefined, Obj([]))
  }

  /** The body the server sends for an error: the ErrorResponse interface, `code` omitted when unset. */
  function ErrorBody(h: HttpError): Value {
    Obj([("message", Str(h.message)), ("statusCode", Num(h.statusCode))]
        + (if h.code == Undefined then [] else [("code", h.code)])
        + [("validation", h.validation)])
  }

  /**
   * Any error the server reports in its own shape comes back unchanged out of the
   * constructor, whatever HTTP status carried it: the table never overrides it.
   */
  lemma ServerErrorRoundTrip(h: HttpError, status: int)
    requires Truthy(h.validation)
    ensures NewHttpError(AxiosFailure(Some(HttpResponse(status, ErrorBody(h))))) == h
  {
    var head := [("message", Str(h.message)), ("statusCode", Num(h.statusCode))];
    var code: seq<(string, Value)> := if h.code == Undefined then [] else [("code", h.code)];
    var tail := [("validation", h.validation)];
    assert ErrorBody(h).entries == head + (code + tail);
    assert "validation"[0] != "statusCode"[0];
    assert head + (code + tail) == [head[0]] + ([head[1]] + (code + tail));
    LookupSkip([head[0]], [head[1]] + (code + tail), "statusCode");
    LookupSkip(head, code + tail, "code");
    LookupSkip(head, code + tail, "validation");
    LookupSkip(code, tail, "validation");
  }

  /** The status a table message stands for; None for the default text. */
  function TableStatus(message: string): Option<int> {
    if message == BadRequestMessage then Some(400)
    else if message == UnauthorizedMessage then Some(401)
    else if message == ForbiddenMessage then Some(403)
    else if message == NotFoundMessage then Some(404)
    else if message == InternalErrorMessage then Some(500)
    else if message == BadGatewayMessage then Some(502)
    else if message == UnavailableMessage then Some(503)
    else None
  }

  /**
   * The table gives each of the seven known statuses its own text and every other
   * status the default text, so the message of a fallback error tells its status class.
   */
  lemma DefaultMessageIdentifiesStatus(httpStatus: int)
    ensures TableStatus(DefaultMessage(httpStatus))
         == if httpStatus in {400, 401, 403, 404, 500, 502, 503} then Some(httpStatus) else None
  {
  }
}
