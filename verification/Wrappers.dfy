/** Option values and results that may fail. */
module Wrappers {
  datatype Option<+T> = None | Some(value: T)

  datatype Reply<+T, +E> = Done(value: T) | Failed(error: E)
}
