/** The optional-value datatype shared by the other modules. */
module Wrappers {

  /** A value that may be missing: PHP's absent key or `null`. */
  datatype Option<+T> = None | Some(value: T)
}
