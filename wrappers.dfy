/** The optional value used where the writer returns a possibly-NULL pointer. */
module Wrappers {

  datatype Option<+T> = None | Some(value: T)

}
