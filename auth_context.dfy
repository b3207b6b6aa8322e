/**
 * The session context: the promise-to-boolean adapters around the mutations, the
 * exposed user, and the guard of the `useAuth` accessor.
 */
module AuthContext {
  import opened Wrappers
  import ApiTypes
  import UseAuth

  /** `login`/`register`: true when the mutation resolves, false when it throws. */
  function Succeeded<T>(outcome: Result<T, ApiTypes.Thrown>): (b: bool)
    ensures b <==> outcome.Success?
  {
    match outcome
    case Success(_) => true
    case Failure(_) => false
  }

  /** `logout`: the error is caught, so the promise always resolves. */
  function LogoutOutcome<T>(outcome: Result<T, ApiTypes.Thrown>): (r: Result<(), ApiTypes.Thrown>)
    ensures r.Success?
  {
    match outcome
    case Success(_) => Success(())
    case Failure(_) => Success(())
  }

  /** `user || null` over the query's data: None for undefined (not fetched yet), the
      inner None for null. */
  function ExposedUser(data: Option<Option<ApiTypes.User>>): (u: Option<ApiTypes.User>)
    ensures data.None? ==> u.None?
    ensures data.Some? ==> u == data.value
  {
    if data.Some? && data.value.Some? then data.value else None
  }

  datatype ContextValue = ContextValue(user: Option<ApiTypes.User>, isLoading: bool)

  function Provide(data: Option<Option<ApiTypes.User>>, isLoading: bool): ContextValue {
    ContextValue(ExposedUser(data), isLoading)
  }

  /** `useAuth()` outside a provider throws. */
  function UseAuthGuard(context: Option<ContextValue>): (r: Result<ContextValue, ApiTypes.Thrown>)
    ensures context.None? <==> r == Failure(ApiTypes.Error("useAuth must be used within an AuthProvider"))
    ensures context.Some? ==> r == Success(context.value)
  {
    if context.None? then Failure(ApiTypes.Error("useAuth must be used within an AuthProvider")) else Success(context.value)
  }

  /** End to end: `login` gives true exactly when the server's envelope reports success,
      whatever the HTTP status. */
  lemma LoginTrueIffEnvelopeSuccess(fetched: ApiTypes.Fetched<ApiTypes.AuthResponse>)
    ensures Succeeded(UseAuth.LoginResult(fetched))
            <==> fetched.Responded? && fetched.reply.body.Some? && fetched.reply.body.value.success
    ensures Succeeded(UseAuth.RegisterResult(fetched))
            <==> fetched.Responded? && fetched.reply.body.Some? && fetched.reply.body.value.success
  {
  }

  /** The exposed user is the one `useUser` fetched, and no user while the first fetch
      is pending or when it did not find one. */
  lemma ExposedUserFromQuery(fetched: ApiTypes.Fetched<ApiTypes.User>)
    ensures var r := UseAuth.UserResult(fetched);
            r.Success? ==> ExposedUser(Some(r.value)) == r.value
    ensures fetched.Responded? && !ApiTypes.Ok(fetched.reply.status) ==>
              ExposedUser(Some(UseAuth.UserResult(fetched).value)).None?
  {
  }
}
