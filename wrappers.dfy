/** The optional value used for "not found" and for a file that could not be read. */
module Wrappers {

  datatype Option<+T> = None | Some(value: T)
}
