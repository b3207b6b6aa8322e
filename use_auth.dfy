/**
 * The session hooks: the auth cache keys, how the current-user request is read, the
 * envelope checks of login, register and logout, and the cache operations each
 * mutation requests when it succeeds.
 */
module UseAuth {
  import opened Wrappers
  import opened QueryCache
  import JsString
  import ApiTypes

  const All: QueryKey := [Atom("auth")]

  function UserKey(): (k: QueryKey)
    ensures Extends(k, All) && k != All
  {
    All + [Atom("user")]
  }

  const UserStaleTime: int := 5 * 60 * 1000

  /** `useUser`'s `queryFn`: a response that is not ok is "no user", not an error; an ok
      response gives the data on success and null otherwise. */
  function UserResult(fetched: ApiTypes.Fetched<ApiTypes.User>): (r: Result<Option<ApiTypes.User>, ApiTypes.Thrown>)
    ensures fetched.Responded? && !ApiTypes.Ok(fetched.reply.status) ==> r == Success(None)
    ensures r.Failure? <==> fetched.Rejected? || (fetched.reply.body.None? && ApiTypes.Ok(fetched.reply.status))
    ensures r.Success? && r.value.Some? ==>
              ApiTypes.Ok(fetched.reply.status) && fetched.reply.body.value.success
              && r.value == fetched.reply.body.value.data
    ensures fetched.Responded? && ApiTypes.Ok(fetched.reply.status) && fetched.reply.body.Some? ==>
              r == Success(if fetched.reply.body.value.success then fetched.reply.body.value.data else None)
  {
    match fetched
    case Rejected => Failure(ApiTypes.NetworkFailure)
    case Responded(reply) =>
      if !ApiTypes.Ok(reply.status) then Success(None)
      else if reply.body.None? then Failure(ApiTypes.NotJson)
      else if reply.body.value.success then Success(reply.body.value.data)
      else Success(None)
  }

  /** A mutation's `mutationFn`: the body is read whatever the status; it fails with the
      envelope's error, or the fallback when that is missing or empty, exactly when the
      envelope reports failure, and otherwise resolves to the whole envelope. */
  function MutationResult<T>(fetched: ApiTypes.Fetched<T>, fallback: string): (r: Result<ApiTypes.ApiResponse<T>, ApiTypes.Thrown>)
    ensures r.Success? <==> fetched.Responded? && fetched.reply.body.Some? && fetched.reply.body.value.success
    ensures r.Success? ==> r.value == fetched.reply.body.value
    ensures fetched.Responded? && fetched.reply.body.Some? && !fetched.reply.body.value.success ==>
              r == Failure(ApiTypes.Error(JsString.OrElse(fetched.reply.body.value.error, fallback)))
  {
    match fetched
    case Rejected => Failure(ApiTypes.NetworkFailure)
    case Responded(reply) =>
      if reply.body.None? then Failure(ApiTypes.NotJson)
      else if !reply.body.value.success then Failure(ApiTypes.Error(JsString.OrElse(reply.body.value.error, fallback)))
      else Success(reply.body.value)
  }

  function LoginResult(fetched: ApiTypes.Fetched<ApiTypes.AuthResponse>): Result<ApiTypes.ApiResponse<ApiTypes.AuthResponse>, ApiTypes.Thrown> {
    MutationResult(fetched, "Login failed")
  }

  function RegisterResult(fetched: ApiTypes.Fetched<ApiTypes.AuthResponse>): Result<ApiTypes.ApiResponse<ApiTypes.AuthResponse>, ApiTypes.Thrown> {
    MutationResult(fetched, "Registration failed")
  }

  function LogoutResult(fetched: ApiTypes.Fetched<()>): Result<ApiTypes.ApiResponse<()>, ApiTypes.Thrown> {
    MutationResult(fetched, "Logout failed")
  }

  /** The mutations do not look at the HTTP status: two replies with the same body give
      the same outcome. */
  lemma StatusIgnored<T>(a: ApiTypes.Reply<T>, b: ApiTypes.Reply<T>, fallback: string)
    requires a.body == b.body
    ensures MutationResult(ApiTypes.Responded(a), fallback) == MutationResult(ApiTypes.Responded(b), fallback)
  {
  }

  /** An unsuccessful login without an error text fails with "Login failed"; with one
      it fails with that text. */
  lemma LoginFailureMessage(reply: ApiTypes.Reply<ApiTypes.AuthResponse>)
    requires reply.body.Some? && !reply.body.value.success
    ensures reply.body.value.error in {None, Some("")} ==>
              LoginResult(ApiTypes.Responded(reply)) == Failure(ApiTypes.Error("Login failed"))
    ensures JsString.TruthyString(reply.body.value.error) ==>
              LoginResult(ApiTypes.Responded(reply)) == Failure(ApiTypes.Error(reply.body.value.error.value))
  {
  }

  /** Run the login or register mutation: on success its `onSuccess` asks to refresh the
      current user, and nothing else; on failure nothing is requested. */
  method SignIn(client: QueryClient, fetched: ApiTypes.Fetched<ApiTypes.AuthResponse>, fallback: string)
    returns (r: Result<ApiTypes.ApiResponse<ApiTypes.AuthResponse>, ApiTypes.Thrown>)
    modifies client
    ensures r == MutationResult(fetched, fallback)
    ensures client.requested == old(client.requested) + (if r.Success? then [Invalidate(UserKey())] else [])
  {
    r := MutationResult(fetched, fallback);
    if r.Success? {
      client.InvalidateQueries(UserKey());
    }
  }

  /** Run the logout mutation: on success the cached user is set to null and then every
      auth query is removed. */
  method LogOut(client: QueryClient, fetched: ApiTypes.Fetched<()>)
    returns (r: Result<ApiTypes.ApiResponse<()>, ApiTypes.Thrown>)
    modifies client
    ensures r == LogoutResult(fetched)
    ensures client.requested == old(client.requested)
            + (if r.Success? then [SetDataNull(UserKey()), Remove(All)] else [])
  {
    r := LogoutResult(fetched);
    if r.Success? {
      client.SetQueryDataNull(UserKey());
      client.RemoveQueries(All);
    }
  }

  /** The removal after logout covers the user query it has just nulled. */
  lemma LogoutRemovesUser()
    ensures Extends(UserKey(), All)
    ensures Remove(All).key <= UserKey()
  {
  }
}
