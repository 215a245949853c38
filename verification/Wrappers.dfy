/** The value-or-nothing type the other modules share. */
module Wrappers {
  datatype Option<+T> = None | Some(value: T)
}
