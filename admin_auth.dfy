/**
 * useAdminAuth: the gate in front of the admin pages. Two reactive flags,
 * isCheckingAuth and isAuthenticated, are updated step by step by checkAuth,
 * which asks AuthService and, on a negative answer or an exception, warns and
 * redirects to the login page.
 */
module AdminAuth {
  import opened Wrappers
  import opened Js
  import opened Exceptions
  import opened Ui
  import opened HttpRepository
  import AuthService

  const LoginRequiredWarning := "로그인이 필요합니다."
  const SessionExpiredWarning := "세션이 만료되었습니다. 다시 로그인해주세요."
  const LoginRoute := "/admin/login"

  /** What checkAuth shows and where it navigates for a given settled service result. */
  function GateEvents(authResult: Result<Value, Exception>): (r: seq<UiEvent>)
    // nothing is shown, and the route kept, exactly for a truthy answer
    ensures r == [] <==> authResult.Success? && Truthy(authResult.value)
    // otherwise one warning, then the move to the login page
    ensures r != [] ==>
      && |r| == 2 && r[1] == RouteReplaced(LoginRoute)
      && r[0] == WarningNotice(if authResult.Success? then LoginRequiredWarning else SessionExpiredWarning)
  {
    if authResult.Success? && Truthy(authResult.value) then []
    else if authResult.Success? then [WarningNotice(LoginRequiredWarning), RouteReplaced(LoginRoute)]
    else [WarningNotice(SessionExpiredWarning), RouteReplaced(LoginRoute)]
  }

  /** One useAdminAuth() instance: its refs, the screen it reports to and the service it asks. */
  class AdminGate {
    const screen: Screen
    const client: Client
    const mapper: Mapper
    var isCheckingAuth: bool
    var isAuthenticated: bool

    /** `useAdminAuth()`: a check counts as pending, and nobody is authenticated yet. */
    constructor (screen: Screen, client: Client, mapper: Mapper)
      ensures this.screen == screen && this.client == client && this.mapper == mapper
      ensures isCheckingAuth && !isAuthenticated
    {
      this.screen := screen;
      this.client := client;
      this.mapper := mapper;
      isCheckingAuth := true;
      isAuthenticated := false;
    }

    /** checkAuth up to its await: the check is marked pending, which is what the page sees meanwhile. */
    method Begin()
      modifies this
      ensures isCheckingAuth
      ensures isAuthenticated == old(isAuthenticated)
    {
      isCheckingAuth := true;
    }

    /** checkAuth after its await: the try, catch and finally blocks for the settled service result. */
    method Finish(authResult: Result<Value, Exception>) returns (ok: bool)
      modifies this, screen
      // finally: the check is over on every exit
      ensures !isCheckingAuth
      ensures ok <==> authResult.Success? && Truthy(authResult.value)
      // only a success sets isAuthenticated, and nothing clears it
      ensures isAuthenticated == (old(isAuthenticated) || ok)
      // a falsy answer or an exception warns, then replaces the route with the login page
      ensures screen.events == old(screen.events) + GateEvents(authResult)
    {
      if authResult.Success? {
        if !Truthy(authResult.value) {
          screen.ShowWarning(LoginRequiredWarning);
          screen.Replace(LoginRoute);
          ok := false;
        } else {
          isAuthenticated := true;
          ok := true;
        }
      } else {
        screen.ShowWarning(SessionExpiredWarning);
        screen.Replace(LoginRoute);
        ok := false;
      }
      isCheckingAuth := false;
    }

    /** `checkAuth()`: Begin, await AuthService.isAuthenticated(), Finish. */
    method CheckAuth() returns (ok: bool)
      modifies this, screen
      ensures !isCheckingAuth
      ensures ok <==> Truthy(AuthService.IsAuthenticated(client, mapper).value)
      ensures isAuthenticated == (old(isAuthenticated) || ok)
      // the catch block is unreachable through this service: only the login-required warning can appear
      ensures screen.events == old(screen.events)
        + (if ok then [] else [WarningNotice(LoginRequiredWarning), RouteReplaced(LoginRoute)])
    {
      Begin();
      var authResult := AuthService.IsAuthenticated(client, mapper);
      ok := Finish(authResult);
    }

    /**
     * `checkAuth()` as the code stands, with the older repository injected: the
     * service always rejects, so every check warns that the session expired,
     * redirects to the login page and returns false.
     */
    method CheckAuthAsWritten() returns (ok: bool)
      modifies this, screen
      ensures !isCheckingAuth && !ok
      ensures isAuthenticated == old(isAuthenticated)
      ensures screen.events == old(screen.events) + [WarningNotice(SessionExpiredWarning), RouteReplaced(LoginRoute)]
    {
      Begin();
      var authResult := AuthService.IsAuthenticatedWith(AuthService.OlderRepository, client, mapper);
      ok := Finish(authResult);
    }
  }

  /** With the older repository injected, the gate's events are the session-expired warning and the redirect, whatever the server says. */
  lemma AsWrittenGateAlwaysExpires(client: Client, mapper: Mapper)
    ensures var authResult := AuthService.IsAuthenticatedWith(AuthService.OlderRepository, client, mapper);
      GateEvents(authResult) == [WarningNotice(SessionExpiredWarning), RouteReplaced(LoginRoute)]
  {
  }
}
