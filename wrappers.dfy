/** The optional value used where the source has a nullable reference or throws. */
module Wrappers {

  datatype Option<+T> = None | Some(value: T)
}
