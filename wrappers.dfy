/** The one failure-compatible wrapper the model needs. */
module Wrappers {

  /** A value that may be missing: Java's null, or a lookup that finds nothing. */
  datatype Option<+T> = None | Some(value: T)
}
