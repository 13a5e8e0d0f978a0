/** The shape of every route's reply: an HTTP status and a JSON body. */
module Http {

  /** `{ error: '...' }` or the route's own JSON value. */
  datatype Body<T> = ErrorBody(error: string) | Json(value: T)

  datatype Response<T> = Response(status: int, body: Body<T>)

  /** `res.status(status).json({ error })`. */
  function Error<T>(status: int, error: string): Response<T>
  {
    Response(status, ErrorBody(error))
  }

  /** `{ message: '...' }`, the body of routes that only acknowledge. */
  datatype Message = Message(message: string)
}
