/** Shared helper datatype. */
module Wrappers {
  datatype Option<T> = None | Some(value: T)
}
