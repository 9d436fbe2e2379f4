/** The optional value used wherever the game code passes a reference that may be null. */
module Wrappers {

  datatype Option<+T> = None | Some(value: T)
}
