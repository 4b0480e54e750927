/** The optional value returned by lookups and by form guards. */
module Wrappers {
  datatype Option<+T> = None | Some(value: T)
}
