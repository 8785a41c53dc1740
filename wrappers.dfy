/** An optional value: `None` plays the role of Go's `nil` error. */
module Wrappers {
  datatype Option<+T> = None | Some(value: T)
}
