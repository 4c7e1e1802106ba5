/** The optional value used where the source holds a possibly-absent result. */
module Wrappers {
  datatype Option<+T> = None | Some(value: T)
}
