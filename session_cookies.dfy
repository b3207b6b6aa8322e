/**
 * The session cookie shared by the auth routes: its name and attributes, the
 * outgoing cookie list a route writes, the upstream call a route makes, and how a
 * browser's cookie store takes the cookies a reply sets (section 5.3 of RFC 6265,
 * reduced to the one attribute that matters here: a Max-Age of zero or less deletes
 * the cookie).
 */
module SessionCookies {
  import opened Wrappers
  import JsString
  import ApiTypes

  const CookieName: string := "auth-token"
  const SessionMaxAge: int := 24 * 60 * 60

  datatype CookieOptions = CookieOptions(httpOnly: bool, secure: bool, sameSite: string, maxAge: int, path: string)

  /** The options every route uses: HTTP-only, same-site lax, path "/", secure exactly
      in production. */
  function Options(nodeEnv: string, maxAge: int): (o: CookieOptions)
    ensures o.httpOnly && o.sameSite == "lax" && o.path == "/" && o.maxAge == maxAge
    ensures o.secure <==> nodeEnv == "production"
  {
    CookieOptions(true, nodeEnv == "production", "lax", maxAge, "/")
  }

  datatype SetCookie = SetCookie(name: string, value: string, options: CookieOptions)

  /** `response.cookies`: the cookies the reply sets, in order. */
  class ResponseCookies {
    var written: seq<SetCookie>

    constructor ()
      ensures written == []
    {
      written := [];
    }

    method Set(name: string, value: string, options: CookieOptions)
      modifies this
      ensures written == old(written) + [SetCookie(name, value, options)]
    {
      written := written + [SetCookie(name, value, options)];
    }
  }

  /** The request a route sends to the gateway; `body` is the parsed request body it
      forwards, if any. */
  datatype Upstream<B> = Upstream(url: string, verb: string, headers: map<string, string>, body: Option<B>)

  function Bearer(token: string): map<string, string> {
    map["Authorization" := "Bearer " + token]
  }

  /** `NextResponse.json({ success: false, error }, { status: 500 })` */
  function ServerError<T>(message: string): ApiTypes.Reply<T> {
    ApiTypes.Reply(500, Some(ApiTypes.ApiResponse(false, None, Some(message), None)))
  }

  /** A browser's cookie store: name to value. */
  type Jar = map<string, string>

  function Store(jar: Jar, c: SetCookie): Jar {
    if c.options.maxAge <= 0 then jar - {c.name} else jar[c.name := c.value]
  }

  function StoreAll(jar: Jar, cs: seq<SetCookie>): Jar
    decreases |cs|
  {
    if |cs| == 0 then jar else StoreAll(Store(jar, cs[0]), cs[1..])
  }

  /** `request.cookies.get("auth-token")?.value` */
  function SessionToken(jar: Jar): Option<string> {
    if CookieName in jar then Some(jar[CookieName]) else None
  }
}
