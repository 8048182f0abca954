/** Option and Result. */
module Wrappers {
  datatype Option<+T> = None | Some(value: T)
  {
    function Or(other: Option<T>): Option<T> {
      if Some? then this else other
    }
  }

  datatype Result<+R, +E> = Success(value: R) | Failure(error: E)
}
