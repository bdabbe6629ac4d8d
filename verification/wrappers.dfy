/** Optional values and throwing results, the two shapes of "maybe nothing"
    the wrapper deals with: a Swift optional (`T?`) and a call that may throw. */
module Wrappers {

  /** A Swift optional: `None` plays the part of `nil`. */
  datatype Option<+T> = None | Some(value: T)

  /** The outcome of a call that either returns a value or throws an error. */
  datatype Result<+R, +E> = Success(value: R) | Failure(error: E) {

    /** What a `try` inside `do { ... } catch _ { return nil }` yields:
        the returned value, or `nil` whatever the error was. */
    function ToOption(): (o: Option<R>)
      ensures o.Some? <==> Success?
      ensures o.Some? ==> o.value == value
    {
      match this
      case Success(v) => Some(v)
      case Failure(_) => None
    }
  }
}
