/* Optional values: a Java reference that may be null, or a value that may be absent. */
module Wrappers {
  datatype Option<T> = None | Some(value: T)
}
