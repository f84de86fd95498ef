/** The Option type used for operations that may raise in the source. */
module Wrappers {
  datatype Option<+T> = None | Some(value: T)
}
