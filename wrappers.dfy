/** Option type shared by the modules of this model. */
module Wrappers {

  /** A value that may be missing: a NaN cell of a pandas column, a failed fetch. */
  datatype Option<+T> = None | Some(value: T)
}
