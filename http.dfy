/** Requests and responses of the mock API routes, with the JSON layer reduced to typed values. */
module Http {

  /** A request body: either `request.json()` throws, or it yields a body of type `B`. */
  datatype Request<B> = Unparseable | Json(body: B)

  /** A JSON response: a value with its status, or `{ error }` with an error status. */
  datatype Response<T> = Success(status: int, value: T) | Failure(status: int, error: string)

  /** What a handler returns, together with its route's table afterwards. */
  datatype Handled<T, R> = Handled(response: Response<T>, table: seq<R>)

  const InvalidBody: string := "Invalid request body"
}
