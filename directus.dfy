/**
 * The gateway's Directus service: which service-account credentials it uses, the
 * authenticated flag it keeps, the reads that authenticate first, and the fixed
 * messages its failures carry. The SDK is not modelled: each SDK call is recorded,
 * and whether it succeeds, and what a read returns, are parameters.
 */
module Directus {
  import opened Wrappers
  import JsString

  /** The environment variables the service reads; None for an unset one. */
  datatype Env = Env(url: Option<string>, email: Option<string>, password: Option<string>, token: Option<string>)

  const DefaultUrl: string := "http://localhost:8055"

  /** `process.env.DIRECTUS_URL || "http://localhost:8055"`, the server every client of
      the service and every user-facing call connects to. */
  function DirectusUrl(env: Env): (r: string)
    ensures JsString.TruthyString(env.url) ==> r == env.url.value
    ensures !JsString.TruthyString(env.url) ==> r == DefaultUrl
  {
    JsString.OrElse(env.url, DefaultUrl)
  }

  /** The service account's way in. */
  datatype AuthMethod = StaticToken(token: string) | Password(email: string, password: string) | NoMethod

  /** A static token wins; email and password are used only without one and only when
      both are set; otherwise nothing is configured. */
  function ChooseMethod(env: Env): (m: AuthMethod)
    ensures JsString.TruthyString(env.token) ==> m == StaticToken(env.token.value)
    ensures !JsString.TruthyString(env.token) && JsString.TruthyString(env.email) && JsString.TruthyString(env.password)
            ==> m == Password(env.email.value, env.password.value)
    ensures m.NoMethod? <==>
              !JsString.TruthyString(env.token) && !(JsString.TruthyString(env.email) && JsString.TruthyString(env.password))
  {
    if JsString.TruthyString(env.token) then StaticToken(env.token.value)
    else if JsString.TruthyString(env.email) && JsString.TruthyString(env.password) then Password(env.email.value, env.password.value)
    else NoMethod
  }

  /** The SDK calls the service makes on its own client. */
  datatype SdkCall = SetTokenCall(token: string) | LoginCall(email: string, password: string) | ReadProducts | ReadProductById(id: string)

  const AuthFailed: string := "Directus authentication failed"
  const ProductsFailed: string := "Failed to fetch products from Directus"
  const ProductFailed: string := "Failed to fetch product from Directus"

  /** The SDK call `authenticate` makes for a method (none without one). */
  function AuthCalls(m: AuthMethod): seq<SdkCall> {
    match m
    case StaticToken(t) => [SetTokenCall(t)]
    case Password(e, p) => [LoginCall(e, p)]
    case NoMethod => []
  }

  /** `authenticate`: it succeeds only when a method is configured and its SDK call
      succeeds; every failure, the missing configuration included, is rethrown as the
      same message. */
  function AuthResult(m: AuthMethod, sdkOk: bool): (r: Result<(), string>)
    ensures r.Success? <==> !m.NoMethod? && sdkOk
    ensures r.Failure? ==> r.error == AuthFailed
  {
    if m.NoMethod? || !sdkOk then Failure(AuthFailed) else Success(())
  }

  /** `ensureAuthenticated` from flag `authenticated`: its result, the flag after it and
      the SDK calls it makes. */
  function EnsureResult(authenticated: bool, m: AuthMethod, sdkOk: bool): Result<(), string> {
    if authenticated then Success(()) else AuthResult(m, sdkOk)
  }

  function EnsureFlag(authenticated: bool, m: AuthMethod, sdkOk: bool): bool {
    authenticated || AuthResult(m, sdkOk).Success?
  }

  function EnsureCalls(authenticated: bool, m: AuthMethod): seq<SdkCall> {
    if authenticated then [] else AuthCalls(m)
  }

  /** `product[0] || null`: a record is an object, so it is always truthy. */
  function FirstOrNull<T>(items: seq<T>): (r: Option<T>)
    ensures r.None? <==> |items| == 0
    ensures r.Some? ==> r.value == items[0]
  {
    if |items| > 0 then Some(items[0]) else None
  }

  class DirectusService {
    const env: Env
    var isAuthenticated: bool
    var sdkCalls: seq<SdkCall>

    constructor (env: Env)
      ensures this.env == env
      ensures !isAuthenticated && sdkCalls == []
    {
      this.env := env;
      isAuthenticated := false;
      sdkCalls := [];
    }

    /** `authenticate`, the SDK answering `sdkOk`: the flag is set only on success, and
        a failure leaves it as it was. */
    method Authenticate(sdkOk: bool) returns (r: Result<(), string>)
      modifies this
      ensures r == AuthResult(ChooseMethod(env), sdkOk)
      ensures isAuthenticated == (old(isAuthenticated) || r.Success?)
      ensures sdkCalls == old(sdkCalls) + AuthCalls(ChooseMethod(env))
    {
      var m := ChooseMethod(env);
      match m
      case StaticToken(t) =>
        sdkCalls := sdkCalls + [SetTokenCall(t)];
        if sdkOk {
          isAuthenticated := true;
          r := Success(());
        } else {
          r := Failure(AuthFailed);
        }
      case Password(e, p) =>
        sdkCalls := sdkCalls + [LoginCall(e, p)];
        if sdkOk {
          isAuthenticated := true;
          r := Success(());
        } else {
          r := Failure(AuthFailed);
        }
      case NoMethod =>
        r := Failure(AuthFailed);
    }

    /** `ensureAuthenticated`: authenticate only while not authenticated. */
    method EnsureAuthenticated(sdkOk: bool) returns (r: Result<(), string>)
      modifies this
      ensures r == EnsureResult(old(isAuthenticated), ChooseMethod(env), sdkOk)
      ensures isAuthenticated == EnsureFlag(old(isAuthenticated), ChooseMethod(env), sdkOk)
      ensures sdkCalls == old(sdkCalls) + EnsureCalls(old(isAuthenticated), ChooseMethod(env))
    {
      if !isAuthenticated {
        r := Authenticate(sdkOk);
      } else {
        r := Success(());
      }
    }

    /** `getProducts`: authenticate if needed, then read every product; any failure
        becomes the fixed message. `read` is what the SDK returns, None when it throws. */
    method GetProducts<T>(sdkOk: bool, read: Option<seq<T>>) returns (r: Result<seq<T>, string>)
      modifies this
      ensures var a := EnsureResult(old(isAuthenticated), ChooseMethod(env), sdkOk);
              && r == (if a.Failure? || read.None? then Failure(ProductsFailed) else Success(read.value))
              && sdkCalls == old(sdkCalls) + EnsureCalls(old(isAuthenticated), ChooseMethod(env))
                             + (if a.Success? then [ReadProducts] else [])
      ensures isAuthenticated == EnsureFlag(old(isAuthenticated), ChooseMethod(env), sdkOk)
    {
      var a := EnsureAuthenticated(sdkOk);
      if a.Failure? {
        r := Failure(ProductsFailed);
      } else {
        sdkCalls := sdkCalls + [ReadProducts];
        r := if read.None? then Failure(ProductsFailed) else Success(read.value);
      }
    }

    /** `getProductById`: the same, reading at most one match and giving the first or
        null. */
    method GetProductById<T>(id: string, sdkOk: bool, read: Option<seq<T>>) returns (r: Result<Option<T>, string>)
      modifies this
      ensures var a := EnsureResult(old(isAuthenticated), ChooseMethod(env), sdkOk);
              && r == (if a.Failure? || read.None? then Failure(ProductFailed) else Success(FirstOrNull(read.value)))
              && sdkCalls == old(sdkCalls) + EnsureCalls(old(isAuthenticated), ChooseMethod(env))
                             + (if a.Success? then [ReadProductById(id)] else [])
      ensures isAuthenticated == EnsureFlag(old(isAuthenticated), ChooseMethod(env), sdkOk)
    {
      var a := EnsureAuthenticated(sdkOk);
      if a.Failure? {
        r := Failure(ProductFailed);
      } else {
        sdkCalls := sdkCalls + [ReadProductById(id)];
        r := if read.None? then Failure(ProductFailed) else Success(FirstOrNull(read.value));
      }
    }
  }

  /** The flag after a series of `ensureAuthenticated` calls whose SDK answers are `oks`. */
  function RunFlag(authenticated: bool, m: AuthMethod, oks: seq<bool>): bool
    decreases |oks|
  {
    if |oks| == 0 then authenticated else RunFlag(EnsureFlag(authenticated, m, oks[0]), m, oks[1..])
  }

  /** The SDK calls such a series makes. */
  function RunCalls(authenticated: bool, m: AuthMethod, oks: seq<bool>): seq<SdkCall>
    decreases |oks|
  {
    if |oks| == 0 then []
    else EnsureCalls(authenticated, m) + RunCalls(EnsureFlag(authenticated, m, oks[0]), m, oks[1..])
  }

  /** Attempts up to and including the first success, or all of them. */
  function UntilFirstSuccess(oks: seq<bool>): (n: nat)
    ensures n <= |oks|
  {
    if |oks| == 0 then 0 else if oks[0] then 1 else 1 + UntilFirstSuccess(oks[1..])
  }

  /** Once authenticated the service never authenticates again and the flag is never
      reset; from unauthenticated, it tries once per call up to the first success and
      never after (and never at all without a configured method). */
  lemma {:induction false} AuthenticateOnce(authenticated: bool, m: AuthMethod, oks: seq<bool>)
    ensures authenticated ==> RunFlag(authenticated, m, oks) && RunCalls(authenticated, m, oks) == []
    ensures !authenticated ==>
              |RunCalls(authenticated, m, oks)| == (if m.NoMethod? then 0 else UntilFirstSuccess(oks))
    ensures !authenticated && !m.NoMethod? ==>
              (RunFlag(authenticated, m, oks) <==> exists i :: 0 <= i < |oks| && oks[i])
    decreases |oks|
  {
    if |oks| > 0 {
      var next := EnsureFlag(authenticated, m, oks[0]);
      AuthenticateOnce(next, m, oks[1..]);
      if !authenticated && !m.NoMethod? {
        if !oks[0] {
          assert (exists i :: 0 <= i < |oks| && oks[i]) <==> (exists i :: 0 <= i < |oks[1..]| && oks[1..][i]) by {
            forall i | 0 <= i < |oks| && oks[i] ensures 0 <= i - 1 < |oks[1..]| && oks[1..][i - 1] {}
            forall i | 0 <= i < |oks[1..]| && oks[1..][i] ensures 0 <= i + 1 < |oks| && oks[i + 1] {}
          }
        }
      }
    }
  }

  /** The user-facing calls run on fresh clients of their own and only rename the SDK's
      failure: `outcome` is the SDK's response, None when the SDK call fails. The
      response is returned as it is; a failure becomes the call's fixed message. */
  function Renamed<T>(outcome: Option<T>, message: string): (r: Result<T, string>)
    ensures r.Success? <==> outcome.Some?
    ensures r.Success? ==> r.value == outcome.value
    ensures r.Failure? ==> r.error == message
  {
    if outcome.Some? then Success(outcome.value) else Failure(message)
  }

  function LoginUser<T>(outcome: Option<T>): Result<T, string> {
    Renamed(outcome, "Invalid credentials")
  }

  function RegisterUser<T>(outcome: Option<T>): Result<T, string> {
    Renamed(outcome, "Registration failed")
  }

  function GetUserInfo<T>(outcome: Option<T>): Result<T, string> {
    Renamed(outcome, "Failed to get user information from Directus")
  }
}
