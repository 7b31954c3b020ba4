/** The optional value used for the places where the Go code either yields a value or panics. */
module Wrappers {
  datatype Option<+T> = None | Some(value: T)
}
