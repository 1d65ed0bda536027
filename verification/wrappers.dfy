/** The optional value used wherever the Go code returns a value together with a "found" flag. */
module Wrappers {
  datatype Option<+T> = None | Some(value: T)
}
