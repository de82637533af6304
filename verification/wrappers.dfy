/** Optional values and fallible results, standing in for Guava's `Optional`
    and for the unchecked exceptions thrown by `checkNotNull`, `checkState`
    and `checkArgument`. */
module Wrappers {

  /** A value that may be absent (Guava `Optional`, or a Java reference that may be null). */
  datatype Option<+T> = None | Some(value: T)

  /** Why an operation refused its input. */
  datatype StateError =
    | UndefinedCommand     // invalidate of a name that was never added
    | AlreadyUnregistered  // unregister on a key without a holder
    | ListenerNotFound     // unregister of a listener the holder does not have
    | NotUpdated           // getParam on a result that carries no value
    | GuidMismatch         // appending a page of another post

  /** The exception a Java precondition check throws. */
  datatype Error =
    | NullPointer                      // checkNotNull
    | IllegalArgument                  // checkArgument
    | IllegalState(reason: StateError) // checkState

  /** Either a value or the exception that replaced it. */
  datatype Result<+T> = Success(value: T) | Failure(error: Error)
}
