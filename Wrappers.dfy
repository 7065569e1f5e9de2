/** The optional value used for the computed properties that may yield nothing. */
module Wrappers {

  datatype Option<+T> = None | Some(value: T)
}
