/** The optional value that stands for Go's nil pointers and for a library call that
    returns an error instead of a value. */
module Wrappers {
  datatype Option<+T> = None | Some(value: T)
}
