/** The optional value used for the fields of the game state that the server sets to `null`. */
module Wrappers {
  datatype Option<+T> = None | Some(value: T)
}
