/** The optional value used where the application has `null` or `undefined`. */
module Wrappers {

  datatype Option<+T> = None | Some(value: T)
}
