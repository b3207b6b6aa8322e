/** The register route: the sign-in relay to the gateway's register endpoint. */
module RegisterRoute {
  import opened Wrappers
  import SessionCookies
  import SignInRelay
  import ApiTypes

  const Endpoint: string := "/api/v1/auth/register"
  const FailMessage: string := "Registration failed"

  method Post<B>(baseUrl: string, nodeEnv: string, body: Option<B>, fetched: ApiTypes.Fetched<ApiTypes.AuthResponse>)
    returns (call: Option<SessionCookies.Upstream<B>>, reply: ApiTypes.Reply<ApiTypes.AuthResponse>, cookies: SessionCookies.ResponseCookies)
    ensures call == SignInRelay.Call(baseUrl, Endpoint, body)
    ensures reply == SignInRelay.Reply(body, fetched, FailMessage)
    ensures fresh(cookies) && cookies.written == SignInRelay.Cookies(body, fetched, nodeEnv)
  {
    call, reply, cookies := SignInRelay.Post(baseUrl, Endpoint, FailMessage, nodeEnv, body, fetched);
  }

  /** The parsed body goes to the gateway's register endpoint unchanged, as a JSON POST. */
  lemma ForwardsBody<B>(baseUrl: string, body: B)
    ensures SignInRelay.Call(baseUrl, Endpoint, Some(body))
            == Some(SessionCookies.Upstream(baseUrl + "/api/v1/auth/register", "POST",
                                            map["Content-Type" := "application/json"], Some(body)))
  {
  }
}
