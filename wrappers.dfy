/** An optional value, used for the Score that a move may or may not emit. */
module Wrappers {
  datatype Option<+T> = None | Some(value: T)
}
