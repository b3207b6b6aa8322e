/** The login route: the sign-in relay to the gateway's login endpoint. */
module LoginRoute {
  import opened Wrappers
  import SessionCookies
  import SignInRelay
  import ApiTypes

  const Endpoint: string := "/api/v1/auth/login"
  const FailMessage: string := "Login failed"

  method Post<B>(baseUrl: string, nodeEnv: string, body: Option<B>, fetched: ApiTypes.Fetched<ApiTypes.AuthResponse>)
    returns (call: Option<SessionCookies.Upstream<B>>, reply: ApiTypes.Reply<ApiTypes.AuthResponse>, cookies: SessionCookies.ResponseCookies)
    ensures call == SignInRelay.Call(baseUrl, Endpoint, body)
    ensures reply == SignInRelay.Reply(body, fetched, FailMessage)
    ensures fresh(cookies) && cookies.written == SignInRelay.Cookies(body, fetched, nodeEnv)
  {
    call, reply, cookies := SignInRelay.Post(baseUrl, Endpoint, FailMessage, nodeEnv, body, fetched);
  }

  /** The parsed body goes to the gateway's login endpoint unchanged, as a JSON POST. */
  lemma ForwardsBody<B>(baseUrl: string, body: B)
    ensures SignInRelay.Call(baseUrl, Endpoint, Some(body))
            == Some(SessionCookies.Upstream(baseUrl + "/api/v1/auth/login", "POST",
                                            map["Content-Type" := "application/json"], Some(body)))
  {
  }
}
