/** The optional value used where the page reads `undefined` or renders nothing. */
module Wrappers {
  datatype Option<+T> = None | Some(value: T)
}
