/** The optional-value type used for the firmware's "bool return plus out-parameter" idiom. */
module Wrappers {

  datatype Option<+T> = None | Some(value: T)
}
