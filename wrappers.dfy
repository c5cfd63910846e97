// Option type used wherever the source returns `null`/`undefined` or an
// optional field is absent; Result for operations that throw.
module Wrappers {
  datatype Option<T> = None | Some(value: T)
  {
    function GetOr(default: T): T
    {
      if Some? then value else default
    }
  }

  /** A value, or the error the source would throw instead of returning. */
  datatype Result<T, E> = Success(value: T) | Failure(error: E)
}
