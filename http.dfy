/** What a request handler sees of the hosted database, and what it sends
    back. */
module Http {

  /** How one awaited database call ends: `{ data, error }` with no error,
      `{ data, error }` with an error object carrying `message`, or a
      rejected promise (an exception the handler's `try` catches). */
  datatype Backend<T> = Ok(data: T) | Err(message: string) | Threw

  /** A `NextResponse.json(body, { status })`. */
  datatype Response<B> = Response(status: int, body: B)
}
