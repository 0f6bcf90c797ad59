/** The optional-value type shared by the eigen-solver driver. */
module Wrappers {

  datatype Option<+T> = None | Some(value: T)
}
