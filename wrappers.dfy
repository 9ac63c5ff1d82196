/** The optional value used wherever the copy action reads a key that may be missing. */
module Wrappers {

  datatype Option<+T> = None | Some(value: T)
}
