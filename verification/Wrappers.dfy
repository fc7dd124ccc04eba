/** Shared result types. */
module Wrappers {
  datatype Option<+T> = None | Some(value: T)

  function OrElse<T>(a: Option<T>, b: Option<T>): Option<T> {
    if a.Some? then a else b
  }

  /** The outcome of an operation that the program may refuse with an error. */
  datatype Result<+T, +E> = Ok(value: T) | Err(error: E)
}
