/** Small value wrappers shared by the modules of the model. */
module Wrappers {

  /** A value that may be absent: a NULL pointer, an invalid sentinel, a missing entry. */
  datatype Option<+T> = None | Some(value: T)
}
