/** The optional value used where the viewer either produces something or does nothing. */
module Wrappers {
  datatype Option<+T> = None | Some(value: T)
}
