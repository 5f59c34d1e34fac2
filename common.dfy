/** Value wrappers shared by every part of the model. */
module Common {

  datatype Option<+T> = None | Some(value: T)

  /** What a route handler ends with.
      - Ok: the handler wrote a success response carrying `value`.
      - Fail: the handler wrote an error response with an HTTP status and an error text.
      - Unhandled: something threw inside an async handler that has no catch (a
        storage call, or reading a field of a null `req.user`); the handler writes
        no response of its own and nothing was stored. */
  datatype Reply<+T> = Ok(value: T) | Fail(code: int, message: string) | Unhandled(reason: string)

  const BadRequest := 400
  const Unauthorized := 401
  const Forbidden := 403
  const NotFound := 404
  const ServerError := 500
}
