/** The nullable values of the editor (a presence cursor, a chat message,
    a selected tool) are modelled with Option. */
module Wrappers {

  datatype Option<+T> = None | Some(value: T)
}
