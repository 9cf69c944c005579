/** A value that may be absent: the source's `(value, ok)` pairs. */
module Wrappers {
  datatype Option<+T> = None | Some(value: T)
}
