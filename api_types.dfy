/**
 * The records exchanged with the gateway and the shape of an HTTP exchange as the
 * front-end sees it. A response body is the `ApiResponse` envelope; `data`,
 * `error` and `message` may be absent (None).
 */
module ApiTypes {
  import opened Wrappers

  /** A product. The price is not part of this model. */
  datatype Product = Product(
    id: string, name: string, slug: string, description: string,
    stockQuantity: int, imageUrl: Option<string>, createdAt: string, updatedAt: string)

  datatype BlogPost = BlogPost(
    id: string, title: string, slug: string, content: string, author: string, publishedDate: string)

  datatype User = User(
    id: string, email: string, firstName: Option<string>, lastName: Option<string>,
    role: string, status: string, createdAt: string, updatedAt: string)

  datatype AuthResponse = AuthResponse(
    accessToken: string, refreshToken: Option<string>, expires: int, user: User)

  /** `{ success, data?, error?, message? }` */
  datatype ApiResponse<T> = ApiResponse(success: bool, data: Option<T>, error: Option<string>, message: Option<string>)

  /** A response that arrived: its status and its body, None when the body is not JSON
      (then `response.json()` rejects). */
  datatype Reply<T> = Reply(status: int, body: Option<ApiResponse<T>>)

  /** The outcome of `fetch`: it rejects (network failure) or a response arrives. */
  datatype Fetched<T> = Rejected | Responded(reply: Reply<T>)

  /** Why a promise rejected: an `Error` with its message, a body that is not JSON,
      or a failed `fetch`. */
  datatype Thrown = Error(message: string) | NotJson | NetworkFailure

  /** `response.ok` */
  predicate Ok(status: int) {
    200 <= status <= 299
  }
}
