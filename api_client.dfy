/**
 * The gateway client: a base URL and a bearer token it may hold, the request it
 * composes for an endpoint (URL, headers, method, body), how a response becomes the
 * envelope or an error, the endpoint table, and the helpers that turn failures into
 * an empty list or null. `fetch` is a parameter: the reply the network gives to the
 * composed request.
 */
module ApiClient {
  import opened Wrappers
  import JsString
  import ApiTypes

  const DefaultBaseUrl: string := "http://localhost:3001"

  /** `process.env.NEXT_PUBLIC_API_URL || "http://localhost:3001"` */
  function BaseUrl(env: Option<string>): (r: string)
    ensures JsString.TruthyString(env) ==> r == env.value
    ensures !JsString.TruthyString(env) ==> r == DefaultBaseUrl
  {
    JsString.OrElse(env, DefaultBaseUrl)
  }

  type Headers = map<string, string>

  /** A request body before `JSON.stringify`. */
  datatype Payload =
    | Credentials(email: string, password: string)
    | Registration(email: string, password: string, firstName: Option<string>, lastName: Option<string>)
    | CheckoutItems(items: seq<(int, int)>)

  /** The `RequestInit` passed to `request`: method, headers, body; None is absent. */
  datatype RequestOptions = RequestOptions(verb: Option<string>, headers: Headers, body: Option<Payload>)

  /** What goes to `fetch`: the URL and `{ ...options, headers }`. */
  datatype Sent = Sent(url: string, verb: Option<string>, headers: Headers, body: Option<Payload>)

  /** `fetch`'s default method. */
  function EffectiveMethod(s: Sent): string {
    s.verb.GetOr("GET")
  }

  /** The headers of a request: JSON content type, the caller's headers over it, and the
      bearer token over both when the token is truthy. */
  function RequestHeaders(token: Option<string>, callerHeaders: Headers): Headers {
    var headers := map["Content-Type" := "application/json"] + callerHeaders;
    if JsString.TruthyString(token) then headers["Authorization" := "Bearer " + token.value] else headers
  }

  function Compose(baseURL: string, token: Option<string>, endpoint: string, options: RequestOptions): Sent {
    Sent(baseURL + endpoint, options.verb, RequestHeaders(token, options.headers), options.body)
  }

  /** The header layering: the URL is the base followed by the endpoint; the caller's
      headers are kept except Authorization when a token is set; Content-Type is JSON
      unless the caller gives another; `Authorization: Bearer <token>` is there exactly
      for a truthy token, in place of any the caller gave, and a null or empty token adds
      nothing. */
  lemma ComposeRules(baseURL: string, token: Option<string>, endpoint: string, options: RequestOptions)
    ensures var s := Compose(baseURL, token, endpoint, options);
            && s.url == baseURL + endpoint
            && s.headers.Keys == options.headers.Keys + {"Content-Type"}
                                 + (if JsString.TruthyString(token) then {"Authorization"} else {})
            && s.headers["Content-Type"]
               == (if "Content-Type" in options.headers then options.headers["Content-Type"] else "application/json")
            && (forall h :: h in options.headers && h != "Authorization" ==> s.headers[h] == options.headers[h])
            && (JsString.TruthyString(token) ==> s.headers["Authorization"] == "Bearer " + token.value)
            && (!JsString.TruthyString(token) ==>
                  ("Authorization" in s.headers <==> "Authorization" in options.headers))
            && s.verb == options.verb && s.body == options.body
  {
  }

  /** `request`'s reading of the reply: the body is parsed first; a status that is not ok
      fails with the envelope's error, or "HTTP error! status: <status>" when it has
      none; an ok reply gives the envelope unchanged, even one whose success is false. */
  function Outcome<T>(fetched: ApiTypes.Fetched<T>): (r: Result<ApiTypes.ApiResponse<T>, ApiTypes.Thrown>)
    ensures r.Success? <==> fetched.Responded? && fetched.reply.body.Some? && ApiTypes.Ok(fetched.reply.status)
    ensures r.Success? ==> r.value == fetched.reply.body.value
    ensures fetched.Responded? && fetched.reply.body.Some? && !ApiTypes.Ok(fetched.reply.status) ==>
              r == Failure(ApiTypes.Error(JsString.OrElse(fetched.reply.body.value.error,
                                                          "HTTP error! status: " + JsString.IntToString(fetched.reply.status))))
  {
    match fetched
    case Rejected => Failure(ApiTypes.NetworkFailure)
    case Responded(reply) =>
      if reply.body.None? then Failure(ApiTypes.NotJson)
      else if !ApiTypes.Ok(reply.status) then
        Failure(ApiTypes.Error(JsString.OrElse(reply.body.value.error, "HTTP error! status: " + JsString.IntToString(reply.status))))
      else Success(reply.body.value)
  }

  /** A 500 reply whose envelope has no error text fails with "HTTP error! status: 500". */
  lemma ServerErrorMessage<T>(body: ApiTypes.ApiResponse<T>)
    requires body.error.None?
    ensures Outcome(ApiTypes.Responded(ApiTypes.Reply(500, Some(body)))) == Failure(ApiTypes.Error("HTTP error! status: 500"))
  {
    assert JsString.NatToString(5) == "5";
    assert JsString.NatToString(50) == "50";
    assert JsString.IntToString(500) == "500";
    assert "HTTP error! status: " + "500" == "HTTP error! status: 500";
    assert !ApiTypes.Ok(500);
  }

  /** The client's methods. */
  datatype Call =
    | Login(email: string, password: string)
    | Register(email: string, password: string, firstName: Option<string>, lastName: Option<string>)
    | GetCurrentUser
    | Logout
    | GetProducts
    | GetProduct(id: string)
    | Checkout(items: seq<(int, int)>)
    | GetBlogPosts
    | GetBlogPost(slug: string)

  /** Each method's endpoint under /api/v1. */
  function Endpoint(c: Call): string {
    match c
    case Login(_, _) => "/api/v1/auth/login"
    case Register(_, _, _, _) => "/api/v1/auth/register"
    case GetCurrentUser => "/api/v1/auth/me"
    case Logout => "/api/v1/auth/logout"
    case GetProducts => "/api/v1/products"
    case GetProduct(id) => "/api/v1/products/" + id
    case Checkout(_) => "/api/v1/checkout"
    case GetBlogPosts => "/api/v1/blog"
    case GetBlogPost(slug) => "/api/v1/blog/" + slug
  }

  /** Each method's options: the writes are POST with their body, the reads pass none. */
  function Options(c: Call): RequestOptions {
    match c
    case Login(email, password) => RequestOptions(Some("POST"), map[], Some(Credentials(email, password)))
    case Register(email, password, first, last) =>
      RequestOptions(Some("POST"), map[], Some(Registration(email, password, first, last)))
    case Logout => RequestOptions(Some("POST"), map[], None)
    case Checkout(items) => RequestOptions(Some("POST"), map[], Some(CheckoutItems(items)))
    case _ => RequestOptions(None, map[], None)
  }

  predicate IsWrite(c: Call) {
    c.Login? || c.Register? || c.Logout? || c.Checkout?
  }

  /** Every method targets a path under /api/v1; the four writes are POST and the reads
      GET; only login, register and checkout send a body; no method sets headers, so the
      headers are the defaults and the token. */
  lemma EndpointTable(baseURL: string, token: Option<string>, c: Call)
    ensures JsString.StartsWith(Endpoint(c), "/api/v1/")
    ensures var s := Compose(baseURL, token, Endpoint(c), Options(c));
            && (EffectiveMethod(s) == "POST" <==> IsWrite(c))
            && (EffectiveMethod(s) == "GET" <==> !IsWrite(c))
            && (s.body.Some? <==> c.Login? || c.Register? || c.Checkout?)
            && s.headers == RequestHeaders(token, map[])
    ensures Compose(baseURL, token, Endpoint(Login("e", "p")), Options(Login("e", "p"))).url
            == baseURL + "/api/v1/auth/login"
    ensures c.GetProduct? ==> Compose(baseURL, token, Endpoint(c), Options(c)).url == baseURL + "/api/v1/products/" + c.id
  {
    match c
    case GetProduct(id) =>
      assert ("/api/v1/products/" + id)[..8] == "/api/v1/";
      assert baseURL + ("/api/v1/products/" + id) == baseURL + "/api/v1/products/" + id;
    case GetBlogPost(slug) =>
      assert ("/api/v1/blog/" + slug)[..8] == "/api/v1/";
    case _ =>
  }

  /** `fetchProducts`/`fetchBlogPosts`: the data of a successful envelope, and an empty
      list for an unsuccessful one or any failure (None stands for an absent `data`). */
  function DataOrEmpty<T>(r: Result<ApiTypes.ApiResponse<seq<T>>, ApiTypes.Thrown>): (xs: Option<seq<T>>)
    ensures r.Success? && r.value.success ==> xs == r.value.data
    ensures !(r.Success? && r.value.success) ==> xs == Some([])
  {
    if r.Success? && r.value.success then r.value.data else Some([])
  }

  /** `fetchBlogPost`: the data of a successful envelope, otherwise null. */
  function DataOrNull<T>(r: Result<ApiTypes.ApiResponse<T>, ApiTypes.Thrown>): (x: Option<T>)
    ensures x.Some? ==> r.Success? && r.value.success && x == r.value.data
    ensures r.Success? && r.value.success ==> x == r.value.data
    ensures !(r.Success? && r.value.success) ==> x.None?
  {
    if r.Success? && r.value.success then r.value.data else None
  }

  class Client {
    const baseURL: string
    var token: Option<string>
    const enableLogging: bool

    constructor (baseURL: string, enableLogging: bool)
      ensures this.baseURL == baseURL && this.enableLogging == enableLogging
      ensures token == None
    {
      this.baseURL := baseURL;
      this.enableLogging := enableLogging;
      token := None;
    }

    /** `setToken` replaces the stored token and nothing else. */
    method SetToken(t: Option<string>)
      modifies this
      ensures token == t
    {
      token := t;
    }

    /** `request`: compose the request step by step, hand it to the network, read the
        reply. */
    method Request<T>(endpoint: string, options: RequestOptions, network: Sent -> ApiTypes.Fetched<T>)
      returns (sent: Sent, r: Result<ApiTypes.ApiResponse<T>, ApiTypes.Thrown>)
      ensures sent == Compose(baseURL, token, endpoint, options)
      ensures r == Outcome(network(sent))
    {
      var url := baseURL + endpoint;
      var headers := map["Content-Type" := "application/json"] + options.headers;
      if JsString.TruthyString(token) {
        headers := headers["Authorization" := "Bearer " + token.value];
      }
      sent := Sent(url, options.verb, headers, options.body);
      r := Outcome(network(sent));
    }

    method Invoke<T>(c: Call, network: Sent -> ApiTypes.Fetched<T>)
      returns (sent: Sent, r: Result<ApiTypes.ApiResponse<T>, ApiTypes.Thrown>)
      ensures sent == Compose(baseURL, token, Endpoint(c), Options(c))
      ensures r == Outcome(network(sent))
    {
      sent, r := Request(Endpoint(c), Options(c), network);
    }

    method FetchProducts(network: Sent -> ApiTypes.Fetched<seq<ApiTypes.Product>>)
      returns (products: Option<seq<ApiTypes.Product>>)
      ensures products == DataOrEmpty(Outcome(network(Compose(baseURL, token, "/api/v1/products", RequestOptions(None, map[], None)))))
    {
      var _, r := Invoke(GetProducts, network);
      products := DataOrEmpty(r);
    }

    method FetchBlogPosts(network: Sent -> ApiTypes.Fetched<seq<ApiTypes.BlogPost>>)
      returns (posts: Option<seq<ApiTypes.BlogPost>>)
      ensures posts == DataOrEmpty(Outcome(network(Compose(baseURL, token, "/api/v1/blog", RequestOptions(None, map[], None)))))
    {
      var _, r := Invoke(GetBlogPosts, network);
      posts := DataOrEmpty(r);
    }

    method FetchBlogPost(slug: string, network: Sent -> ApiTypes.Fetched<ApiTypes.BlogPost>)
      returns (post: Option<ApiTypes.BlogPost>)
      ensures post == DataOrNull(Outcome(network(Compose(baseURL, token, "/api/v1/blog/" + slug, RequestOptions(None, map[], None)))))
    {
      var _, r := Invoke(GetBlogPost(slug), network);
      post := DataOrNull(r);
    }
  }

  /** The helpers never fail: any network failure, unreadable body or error status
      gives the empty list or null. */
  lemma HelpersNeverFail<T>(fetched: ApiTypes.Fetched<seq<T>>, one: ApiTypes.Fetched<T>)
    ensures Outcome(fetched).Failure? ==> DataOrEmpty(Outcome(fetched)) == Some([])
    ensures Outcome(one).Failure? ==> DataOrNull(Outcome(one)) == None
    ensures (fetched.Responded? && fetched.reply.body.Some? && ApiTypes.Ok(fetched.reply.status)
             && fetched.reply.body.value.success) ==> DataOrEmpty(Outcome(fetched)) == fetched.reply.body.value.data
  {
  }
}
