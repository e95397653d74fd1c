/** An optional value: a nullable column, a key that may be unset. */
module Wrappers {
  datatype Option<T> = None | Some(value: T)
}
