/** The optional value used throughout the model for C's NULL and Python's None. */
module Wrappers {

  datatype Option<+T> = None | Some(value: T)
}
