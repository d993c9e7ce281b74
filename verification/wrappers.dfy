/** Failure-compatible values shared by every module. */
module Wrappers {
  /** A value that may be absent: the model of a nullable column or field. */
  datatype Option<+T> = None | Some(value: T)
}
