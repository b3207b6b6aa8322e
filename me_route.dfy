/** The current-user route: relay the gateway's answer for the session token. */
module MeRoute {
  import opened Wrappers
  import opened SessionCookies
  import JsString
  import ApiTypes

  const Endpoint: string := "/api/v1/auth/me"

  function Call(baseUrl: string, token: Option<string>): Option<Upstream<()>> {
    if JsString.TruthyString(token) then Some(Upstream(baseUrl + Endpoint, "GET", Bearer(token.value), None)) else None
  }

  const NoToken: ApiTypes.Reply<ApiTypes.User> :=
    ApiTypes.Reply(401, Some(ApiTypes.ApiResponse(false, None, Some("No authentication token"), None)))

  /** `GET`: 401 without a token; otherwise the gateway's body and status, or a 500
      when the call fails or its body is not JSON. */
  function Get(token: Option<string>, fetched: ApiTypes.Fetched<ApiTypes.User>): (r: ApiTypes.Reply<ApiTypes.User>)
    ensures !JsString.TruthyString(token) ==> r == NoToken
    ensures JsString.TruthyString(token) && fetched.Responded? && fetched.reply.body.Some? ==> r == fetched.reply
    ensures JsString.TruthyString(token) && (fetched.Rejected? || fetched.reply.body.None?) ==>
              r == ServerError("Authentication check failed")
  {
    if !JsString.TruthyString(token) then NoToken
    else if fetched.Rejected? || fetched.reply.body.None? then ServerError("Authentication check failed")
    else fetched.reply
  }

  /** Without a token the gateway is not called; with one it is called with the token
      as bearer. */
  lemma CallRules(baseUrl: string, token: Option<string>)
    ensures Call(baseUrl, token).None? <==> !JsString.TruthyString(token)
    ensures Call(baseUrl, token).Some? ==>
              Call(baseUrl, token).value == Upstream(baseUrl + "/api/v1/auth/me", "GET", map["Authorization" := "Bearer " + token.value], None)
  {
  }
}
