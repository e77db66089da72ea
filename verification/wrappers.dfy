/**
 The optional value shared by the task store (a search that may find no
 index) and the sign-up screen (a meter that may not be drawn).
 */
module Wrappers {

  datatype Option<+T> = None | Some(value: T)
}
