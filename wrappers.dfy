/** Option and Result values standing in for Python's `None` and for raised exceptions. */
module Wrappers {
  datatype Option<T> = None | Some(value: T)
  {
    /** `x or default` for an optional value. */
    function UnwrapOr(default: T): T
    {
      if Some? then value else default
    }
  }

  /** A computation that either returns a value or raises; `error` is the exception message. */
  datatype Result<T> = Success(value: T) | Failure(error: string)
}
