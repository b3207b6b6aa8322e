/**
 * The relay shared by the login and register routes: forward the parsed body to the
 * gateway, and on a successful envelope set the session cookie to the access token
 * and relay the envelope; otherwise relay the envelope with the gateway's status;
 * anything thrown becomes a 500 with the route's fixed message.
 */
module SignInRelay {
  import opened Wrappers
  import opened SessionCookies
  import ApiTypes

  type Envelope = ApiTypes.ApiResponse<ApiTypes.AuthResponse>

  /** The gateway call: POST with a JSON content type and the body unchanged; none when
      the request body is not JSON. */
  function Call<B>(baseUrl: string, endpoint: string, body: Option<B>): Option<Upstream<B>> {
    if body.None? then None
    else Some(Upstream(baseUrl + endpoint, "POST", map["Content-Type" := "application/json"], body))
  }

  /** The access token when the envelope reports success and carries data; a success
      without data makes `data.data.access_token` throw. */
  function IssuedToken(fetched: ApiTypes.Fetched<ApiTypes.AuthResponse>): Option<string> {
    if fetched.Responded? && fetched.reply.body.Some? && fetched.reply.body.value.success
       && fetched.reply.body.value.data.Some?
    then Some(fetched.reply.body.value.data.value.accessToken)
    else None
  }

  /** The route's reply. */
  function Reply<B>(body: Option<B>, fetched: ApiTypes.Fetched<ApiTypes.AuthResponse>, failMessage: string)
    : ApiTypes.Reply<ApiTypes.AuthResponse>
  {
    if body.None? || fetched.Rejected? || fetched.reply.body.None? then ServerError(failMessage)
    else if fetched.reply.body.value.success then
      if fetched.reply.body.value.data.None? then ServerError(failMessage)
      else ApiTypes.Reply(200, fetched.reply.body)
    else ApiTypes.Reply(fetched.reply.status, fetched.reply.body)
  }

  /** The cookies the reply sets. */
  function Cookies<B>(body: Option<B>, fetched: ApiTypes.Fetched<ApiTypes.AuthResponse>, nodeEnv: string): seq<SetCookie> {
    if body.Some? && IssuedToken(fetched).Some? then [SetCookie(CookieName, IssuedToken(fetched).value, Options(nodeEnv, SessionMaxAge))]
    else []
  }

  /** `POST`: `body` is the parsed request body (None when it is not JSON) and
      `fetched` the gateway's answer. */
  method Post<B>(baseUrl: string, endpoint: string, failMessage: string, nodeEnv: string,
                 body: Option<B>, fetched: ApiTypes.Fetched<ApiTypes.AuthResponse>)
    returns (call: Option<Upstream<B>>, reply: ApiTypes.Reply<ApiTypes.AuthResponse>, cookies: ResponseCookies)
    ensures call == Call(baseUrl, endpoint, body)
    ensures reply == Reply(body, fetched, failMessage)
    ensures fresh(cookies) && cookies.written == Cookies(body, fetched, nodeEnv)
  {
    cookies := new ResponseCookies();
    if body.None? {
      call := None;
      reply := ServerError(failMessage);
      return;
    }
    call := Some(Upstream(baseUrl + endpoint, "POST", map["Content-Type" := "application/json"], body));
    if fetched.Rejected? || fetched.reply.body.None? {
      reply := ServerError(failMessage);
      return;
    }
    var data := fetched.reply.body.value;
    if data.success {
      if data.data.None? {
        reply := ServerError(failMessage);
        return;
      }
      var token := data.data.value.accessToken;
      reply := ApiTypes.Reply(200, Some(data));
      cookies.Set(CookieName, token, Options(nodeEnv, SessionMaxAge));
    } else {
      reply := ApiTypes.Reply(fetched.reply.status, Some(data));
    }
  }

  /** A cookie is set exactly when the gateway's envelope reports success with data: it
      is the one session cookie, valued with the access token, for 24 hours; the reply
      then relays the envelope with status 200. */
  lemma CookieIffSuccess<B>(body: Option<B>, fetched: ApiTypes.Fetched<ApiTypes.AuthResponse>, nodeEnv: string, failMessage: string)
    ensures |Cookies(body, fetched, nodeEnv)| <= 1
    ensures |Cookies(body, fetched, nodeEnv)| == 1 <==> body.Some? && IssuedToken(fetched).Some?
    ensures |Cookies(body, fetched, nodeEnv)| == 1 ==>
              var c := Cookies(body, fetched, nodeEnv)[0];
              && c.name == "auth-token" && c.value == IssuedToken(fetched).value
              && c.options == CookieOptions(true, nodeEnv == "production", "lax", 86400, "/")
              && Reply(body, fetched, failMessage) == ApiTypes.Reply(200, fetched.reply.body)
  {
  }

  /** An unsuccessful envelope is relayed as it came, with the gateway's status and no
      cookie. */
  lemma FailureRelayed<B>(body: B, reply: ApiTypes.Reply<ApiTypes.AuthResponse>, nodeEnv: string, failMessage: string)
    requires reply.body.Some? && !reply.body.value.success
    ensures Reply(Some(body), ApiTypes.Responded(reply), failMessage) == reply
    ensures Cookies(Some(body), ApiTypes.Responded(reply), nodeEnv) == []
  {
  }

  /** A body that is not JSON, a gateway that cannot be reached or answers with
      something that is not JSON: a 500 with the fixed message and no cookie. */
  lemma ThrownIsServerError<B>(body: Option<B>, fetched: ApiTypes.Fetched<ApiTypes.AuthResponse>, nodeEnv: string, failMessage: string)
    requires body.None? || fetched.Rejected? || fetched.reply.body.None?
    ensures Reply(body, fetched, failMessage) == ApiTypes.Reply(500, Some(ApiTypes.ApiResponse(false, None, Some(failMessage), None)))
    ensures Cookies(body, fetched, nodeEnv) == []
  {
  }
}
