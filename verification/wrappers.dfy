/** Small failure-carrying datatypes shared by the other modules. */
module Wrappers {

  /** A value that may be absent (Java's null, or a failed conversion). */
  datatype Option<+T> = None | Some(value: T)
}
