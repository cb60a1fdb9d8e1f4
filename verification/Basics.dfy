/** Values that may be absent, and outcomes that may be failures. */
module Basics {

  datatype Option<+T> = None | Some(value: T)

  datatype Outcome<+V, +E> = Value(value: V) | Failure(error: E)
}
