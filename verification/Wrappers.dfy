/** Stock result types shared by every module. */
module Wrappers {
  datatype Option<+T> = None | Some(value: T)

  datatype Result<+T, +E> = Success(value: T) | Failure(error: E)

  /** The channel-or-hand view of an optional item: zero or one elements. */
  function Slot<T>(o: Option<T>): seq<T> {
    if o.Some? then [o.value] else []
  }
}
