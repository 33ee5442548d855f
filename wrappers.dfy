/** The optional-value datatype shared by the modules of this model. */
module Wrappers {

  /** A value that may be absent: a missing `window`, an undefined JSON field, an undefined locale. */
  datatype Option<+T> = None | Some(value: T)
}
