/** Small helper datatypes shared by the other modules. */
module Wrappers {

  /** A value that may be absent (a null pointer, a missing key, a failed parse). */
  datatype Option<+T> = None | Some(value: T)
}
