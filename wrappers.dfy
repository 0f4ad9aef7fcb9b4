/** Small value types shared by every module: optional values, the "was this
    field sent?" marker of a partial-update record, and the error kinds the
    HTTP handlers answer with. */
module Wrappers {

  datatype Option<+T> = None | Some(value: T)

  /** A field of a partial-update record: `Unset` when the client did not send
      it, `Set(v)` when it did (possibly with an explicit null, when `T` is itself
      an `Option`). */
  datatype Field<+T> = Unset | Set(value: T)

  /** The value a field update leaves in a column that held `prior`. */
  function Or<T>(f: Field<T>, prior: T): T
  {
    match f
    case Unset => prior
    case Set(v) => v
  }

  /** The HTTP error kinds raised by the handlers: 404, 401, 403, 400, and 500
      for an exception that escapes a handler (a failed commit, a dereference of
      a missing row). */
  datatype Error = NotFound | Unauthenticated | Forbidden | BadRequest | ServerError

  datatype Result<+T> = Ok(value: T) | Err(error: Error)
}
