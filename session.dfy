/**
 * The session cookie across the routes, as a browser's cookie store carries it from
 * one request to the next.
 */
module Session {
  import opened Wrappers
  import opened SessionCookies
  import JsString
  import ApiTypes
  import SignInRelay
  import LogoutRoute
  import MeRoute

  /** After a successful login the browser holds the access token, and the next
      current-user request sends it to the gateway as bearer; after a completed logout
      the cookie is gone and the current-user route answers 401 without calling the
      gateway. */
  lemma LoginThenLogout<B>(jar: Jar, body: B, fetched: ApiTypes.Fetched<ApiTypes.AuthResponse>,
                           nodeEnv: string, baseUrl: string, next: ApiTypes.Fetched<ApiTypes.User>)
    requires SignInRelay.IssuedToken(fetched).Some? && SignInRelay.IssuedToken(fetched).value != ""
    ensures var afterLogin := StoreAll(jar, SignInRelay.Cookies(Some(body), fetched, nodeEnv));
            && SessionToken(afterLogin) == SignInRelay.IssuedToken(fetched)
            && MeRoute.Call(baseUrl, SessionToken(afterLogin)).value.headers["Authorization"]
               == "Bearer " + SignInRelay.IssuedToken(fetched).value
    ensures var afterLogin := StoreAll(jar, SignInRelay.Cookies(Some(body), fetched, nodeEnv));
            var afterLogout := StoreAll(afterLogin, LogoutRoute.Cookies(SessionToken(afterLogin), false, nodeEnv));
            && SessionToken(afterLogout).None?
            && MeRoute.Call(baseUrl, SessionToken(afterLogout)).None?
            && MeRoute.Get(SessionToken(afterLogout), next) == MeRoute.NoToken
  {
    var cs := SignInRelay.Cookies(Some(body), fetched, nodeEnv);
    var afterLogin := StoreAll(jar, cs);
    assert |cs| == 1 && cs[1..] == [];
    assert StoreAll(Store(jar, cs[0]), cs[1..]) == Store(jar, cs[0]);
    assert afterLogin == Store(jar, cs[0]);
    var ls := LogoutRoute.Cookies(SessionToken(afterLogin), false, nodeEnv);
    assert |ls| == 1 && ls[1..] == [];
    assert StoreAll(Store(afterLogin, ls[0]), ls[1..]) == Store(afterLogin, ls[0]);
    assert StoreAll(afterLogin, ls) == Store(afterLogin, ls[0]);
  }

  /** A reply that sets no cookie leaves the browser's session as it was: a failed
      login keeps whatever session there was. */
  lemma FailedLoginKeepsSession<B>(jar: Jar, body: Option<B>, fetched: ApiTypes.Fetched<ApiTypes.AuthResponse>, nodeEnv: string)
    requires SignInRelay.IssuedToken(fetched).None?
    ensures StoreAll(jar, SignInRelay.Cookies(body, fetched, nodeEnv)) == jar
  {
  }
}
