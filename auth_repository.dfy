/**
 * AuthRepository (src/repository/auth): login, logout and the server-side
 * session check, each one request through HttpRepository.
 */
module AuthRepository {
  import opened Wrappers
  import opened Js
  import opened HttpErrors
  import opened Exceptions
  import opened HttpRepository

  const LoginPath := "/api/auth/login"
  const LogoutPath := "/api/logout"
  const SessionPath := "/api/auth/session"

  /** login(request): POSTs the request as the body and maps the answer onto LoginResponse; no catch. */
  function Login(client: Client, mapper: Mapper, request: Value): (r: Result<Value, HttpError>)
    ensures var answer := client(RequestConfig(Some(POST), LoginPath, Undefined, request, None));
      && (answer.Failure? ==> r == Failure(answer.error))
      && (answer.Success? ==> r == Success(mapper(LoginResponse, answer.value)))
  {
    Post(client, mapper, RequestConfig(None, LoginPath, Undefined, request, None), Some(LoginResponse))
  }

  /** logout(): POSTs with no body and maps the answer onto LogoutResponse; no catch. */
  function Logout(client: Client, mapper: Mapper): (r: Result<Value, HttpError>)
    ensures var answer := client(RequestConfig(Some(POST), LogoutPath, Undefined, Undefined, None));
      && (answer.Failure? ==> r == Failure(answer.error))
      && (answer.Success? ==> r == Success(mapper(LogoutResponse, answer.value)))
  {
    Post(client, mapper, PathOnly(LogoutPath), Some(LogoutResponse))
  }

  /** The `try` block of checkAuthentication: GET the session, then read `response.authenticated`. */
  function SessionCheckAttempt(client: Client, mapper: Mapper): Result<Value, Exception> {
    match Get(client, mapper, PathOnly(SessionPath), AuthCheckResponse)
    case Failure(e) => Failure(HttpFailure(e))
    case Success(response) => ReadProperty(response, "authenticated")
  }

  /** checkAuthentication(): the `authenticated` field of the session answer; false whenever anything throws. */
  function CheckAuthentication(client: Client, mapper: Mapper): (r: Result<Value, Exception>)
    // the promise never rejects
    ensures r.Success?
    ensures var answer := client(RequestConfig(Some(GET), SessionPath, Undefined, Undefined, None));
      // a failed request reads as "not authenticated"
      && (answer.Failure? ==> r.value == Bool(false))
      // otherwise the mapped answer's `authenticated` field, verbatim, unless the mapped answer is null or undefined
      && (answer.Success? ==>
            var response := mapper(AuthCheckResponse, answer.value);
            r.value == if response.Null? || response.Undefined? then Bool(false) else Prop(response, "authenticated"))
  {
    match SessionCheckAttempt(client, mapper)
    case Failure(_) => Success(Bool(false))
    case Success(authenticated) => Success(authenticated)
  }
}
