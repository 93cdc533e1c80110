/** The optional value used where the source catches a lookup failure. */
module Wrappers {

  datatype Option<+T> = None | Some(value: T)
}
