/**
 * HttpRepository: the typed request layer every domain repository goes through.
 * Each method copies the request config with its own HTTP method forced in,
 * hands it to the transport, and maps a successful body onto the requested
 * class. The transport (AxiosHttpClient) and class-transformer's
 * plainToInstance are parameters: nothing is assumed about them except their types.
 */
module HttpRepository {
  import opened Wrappers
  import opened Js
  import opened HttpErrors

  datatype HttpMethod = GET | POST | PATCH | DELETE

  /** HttpRequestConfig (`verb` is its `method` field); an omitted optional field is None or Undefined. */
  datatype RequestConfig = RequestConfig(
    verb: Option<HttpMethod>,
    path: string,
    params: Value,
    body: Value,
    withAuth: Option<bool>)

  /** The response classes that are handed to plainToInstance. */
  datatype Shape =
    | LoginResponse
    | LogoutResponse
    | AuthCheckResponse
    | PostPageResponse
    | PostItem
    | CategoryListResponse
    | CategoryCountListResponse

  /** AxiosHttpClient.request: fulfils with the response body or rejects with an HttpError. */
  type Client = RequestConfig -> Result<Value, HttpError>

  /** plainToInstance(clazz, plain). */
  type Mapper = (Shape, Value) -> Value

  /** A config that gives nothing but the path: `{ path }`. */
  function PathOnly(path: string): RequestConfig {
    RequestConfig(None, path, Undefined, Undefined, None)
  }

  /** The `.then` step: the body mapped onto `clazz` when one is given, the raw body otherwise. */
  function Settle(answer: Result<Value, HttpError>, mapper: Mapper, clazz: Option<Shape>): Result<Value, HttpError> {
    match answer
    case Failure(e) => Failure(e)
    case Success(body) => Success(if clazz.Some? then mapper(clazz.value, body) else body)
  }

  /** `get(config, clazz)`: sends `{...config, method: 'GET'}` and maps the body onto `clazz`. */
  function Get(client: Client, mapper: Mapper, config: RequestConfig, clazz: Shape): (r: Result<Value, HttpError>)
    ensures var answer := client(config.(verb := Some(GET)));
      && (answer.Failure? ==> r == Failure(answer.error))
      && (answer.Success? ==> r == Success(mapper(clazz, answer.value)))
  {
    Settle(client(config.(verb := Some(GET))), mapper, Some(clazz))
  }

  /** `delete(config, clazz = null)`: sends `{...config, method: 'DELETE'}`; the raw body when no class is given. */
  function Delete(client: Client, mapper: Mapper, config: RequestConfig, clazz: Option<Shape> := None): (r: Result<Value, HttpError>)
    ensures var answer := client(config.(verb := Some(DELETE)));
      && (answer.Failure? ==> r == Failure(answer.error))
      && (answer.Success? && clazz.None? ==> r == Success(answer.value))
      && (answer.Success? && clazz.Some? ==> r == Success(mapper(clazz.value, answer.value)))
  {
    Settle(client(config.(verb := Some(DELETE))), mapper, clazz)
  }

  /** `post(config, clazz = null)`: sends `{...config, method: 'POST'}`; the raw body when no class is given. */
  function Post(client: Client, mapper: Mapper, config: RequestConfig, clazz: Option<Shape> := None): (r: Result<Value, HttpError>)
    ensures var answer := client(config.(verb := Some(POST)));
      && (answer.Failure? ==> r == Failure(answer.error))
      && (answer.Success? && clazz.None? ==> r == Success(answer.value))
      && (answer.Success? && clazz.Some? ==> r == Success(mapper(clazz.value, answer.value)))
  {
    Settle(client(config.(verb := Some(POST))), mapper, clazz)
  }

  /**
   * The method a caller puts in the config never matters: two configs that agree
   * on every other field (path, params, body, withAuth) give the same result.
   */
  lemma CallerMethodIgnored(client: Client, mapper: Mapper, c1: RequestConfig, c2: RequestConfig, clazz: Shape)
    requires c1.(verb := None) == c2.(verb := None)
    // the request sent is the same: the forced method replaces whatever the caller set
    ensures forall m: HttpMethod :: c1.(verb := Some(m)) == c2.(verb := Some(m))
    ensures Get(client, mapper, c1, clazz) == Get(client, mapper, c2, clazz)
    ensures Post(client, mapper, c1, Some(clazz)) == Post(client, mapper, c2, Some(clazz))
    ensures Post(client, mapper, c1) == Post(client, mapper, c2)
    ensures Delete(client, mapper, c1, Some(clazz)) == Delete(client, mapper, c2, Some(clazz))
    ensures Delete(client, mapper, c1) == Delete(client, mapper, c2)
  {
    assert c1.(verb := Some(GET)) == c2.(verb := Some(GET));
    assert c1.(verb := Some(POST)) == c2.(verb := Some(POST));
    assert c1.(verb := Some(DELETE)) == c2.(verb := Some(DELETE));
  }
}
