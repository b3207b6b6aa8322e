/**
 * The logout route: tell the gateway when there is a session token, then expire the
 * session cookie.
 */
module LogoutRoute {
  import opened Wrappers
  import opened SessionCookies
  import JsString
  import ApiTypes

  const Endpoint: string := "/api/v1/auth/logout"

  /** The gateway call: only with a truthy session token, and then with it as bearer. */
  function Call(baseUrl: string, token: Option<string>): Option<Upstream<()>> {
    if JsString.TruthyString(token) then Some(Upstream(baseUrl + Endpoint, "POST", Bearer(token.value), None)) else None
  }

  /** The gateway's answer is awaited but never read; only a failed call (the fetch
      rejecting) matters, and it makes the route answer 500. */
  function Reply(token: Option<string>, upstreamRejects: bool): ApiTypes.Reply<()> {
    if JsString.TruthyString(token) && upstreamRejects then ServerError("Logout failed")
    else ApiTypes.Reply(200, Some(ApiTypes.ApiResponse(true, None, None, Some("Logout successful"))))
  }

  function Cookies(token: Option<string>, upstreamRejects: bool, nodeEnv: string): seq<SetCookie> {
    if JsString.TruthyString(token) && upstreamRejects then [] else [SetCookie(CookieName, "", Options(nodeEnv, 0))]
  }

  /** `POST`: `token` is the request's session cookie and `upstreamRejects` whether the
      gateway call fails. */
  method Post(baseUrl: string, nodeEnv: string, token: Option<string>, upstreamRejects: bool)
    returns (call: Option<Upstream<()>>, reply: ApiTypes.Reply<()>, cookies: ResponseCookies)
    ensures call == Call(baseUrl, token)
    ensures reply == Reply(token, upstreamRejects)
    ensures fresh(cookies) && cookies.written == Cookies(token, upstreamRejects, nodeEnv)
  {
    cookies := new ResponseCookies();
    call := None;
    if JsString.TruthyString(token) {
      call := Some(Upstream(baseUrl + Endpoint, "POST", Bearer(token.value), None));
      if upstreamRejects {
        reply := ServerError("Logout failed");
        return;
      }
    }
    reply := ApiTypes.Reply(200, Some(ApiTypes.ApiResponse(true, None, None, Some("Logout successful"))));
    cookies.Set(CookieName, "", Options(nodeEnv, 0));
  }

  /** Unless the gateway call fails, logout always succeeds and expires the cookie with
      an empty value and the login attributes; a failed call leaves the cookie alone. */
  lemma LogoutRules(token: Option<string>, upstreamRejects: bool, nodeEnv: string, baseUrl: string)
    ensures Call(baseUrl, token).Some? <==> JsString.TruthyString(token)
    ensures Call(baseUrl, token).Some? ==> Call(baseUrl, token).value.headers["Authorization"] == "Bearer " + token.value
    ensures !(JsString.TruthyString(token) && upstreamRejects) ==>
              && Reply(token, upstreamRejects).status == 200
              && Reply(token, upstreamRejects).body.value.success
              && Cookies(token, upstreamRejects, nodeEnv)
                 == [SetCookie("auth-token", "", CookieOptions(true, nodeEnv == "production", "lax", 0, "/"))]
    ensures JsString.TruthyString(token) && upstreamRejects ==>
              Reply(token, upstreamRejects).status == 500 && Cookies(token, upstreamRejects, nodeEnv) == []
  {
  }
}
