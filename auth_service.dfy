/**
 * AuthService: delegates the authentication check to the repository.
 * The service imports the AuthRepository class of src/repository/AuthRepository.ts,
 * an older class whose only method is login, so the dependency container injects
 * that class. The model states both the service as written, over that class, and
 * the service over the AuthRepository of src/repository/auth, which has
 * checkAuthentication.
 */
module AuthService {
  import opened Wrappers
  import opened Js
  import opened Exceptions
  import opened HttpRepository
  import AuthRepository

  /** Which AuthRepository class the service is given. */
  datatype Injected =
      /** src/repository/AuthRepository.ts: only login, no checkAuthentication */
    | OlderRepository
      /** src/repository/auth/AuthRepository.ts: login, logout and checkAuthentication */
    | AuthFolderRepository

  /** The message V8 gives the TypeError of calling a method the object does not have. */
  const NotAFunctionMessage := "this.authRepository.checkAuthentication is not a function"

  /** isAuthenticated() over the given repository class: `return await this.authRepository.checkAuthentication()`. */
  function IsAuthenticatedWith(repository: Injected, client: Client, mapper: Mapper): (r: Result<Value, Exception>)
    // with a class that has the check, exactly its answer, which never rejects
    ensures repository == AuthFolderRepository ==> r == AuthRepository.CheckAuthentication(client, mapper) && r.Success?
    // with the older class the call throws a TypeError, and the promise rejects with it
    ensures repository == OlderRepository ==> r.Failure? && r.error == ErrorObject(Some(NotAFunctionMessage))
  {
    match repository
    case OlderRepository => Failure(ErrorObject(Some(NotAFunctionMessage)))
    case AuthFolderRepository =>
      match AuthRepository.CheckAuthentication(client, mapper)
      case Failure(e) => Failure(e)
      case Success(v) => Success(v)
  }

  /** isAuthenticated() over the repository that has checkAuthentication. */
  function IsAuthenticated(client: Client, mapper: Mapper): (r: Result<Value, Exception>)
    ensures r == AuthRepository.CheckAuthentication(client, mapper)
    // never rejects, because the repository's check never does
    ensures r.Success?
  {
    IsAuthenticatedWith(AuthFolderRepository, client, mapper)
  }

  /** quickAuthCheck(): the same answer as isAuthenticated(). */
  function QuickAuthCheck(client: Client, mapper: Mapper): (r: Result<Value, Exception>)
    ensures r == IsAuthenticated(client, mapper)
    ensures r.Success?
  {
    IsAuthenticated(client, mapper)
  }
}
