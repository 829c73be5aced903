/** Success/failure values used where the source catches a `ValueError` or skips a value. */
module Wrappers {

  datatype Option<+T> = None | Some(value: T)
}
