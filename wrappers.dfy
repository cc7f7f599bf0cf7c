/** The optional value used for Go's nil-able pointers and for reads that may fail. */
module Wrappers {

  datatype Option<+T> = None | Some(value: T)
}
