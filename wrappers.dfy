/** Optional values, for the fields a request body or a stored document may lack. */
module Wrappers {

  datatype Option<T> = None | Some(value: T) {

    /** The value, or `default` when absent (the `x || default` idiom of the source). */
    function GetOr(default: T): T {
      match this
      case Some(v) => v
      case None => default
    }
  }
}

/** The JSON replies the HTTP handlers send: a success carrying data, or a failure with a message. */
module Http {

  datatype Reply<T> = Ok(code: int, data: T) | Fail(code: int, message: string)

  const OK := 200
  const CREATED := 201
  const BAD_REQUEST := 400
  const UNAUTHORIZED := 401
  const FORBIDDEN := 403
  const NOT_FOUND := 404
  const SERVER_ERROR := 500
}
