/** The optional value used for state that is unset until first assigned. */
module Wrappers {
  datatype Option<+T> = None | Some(value: T)
}
