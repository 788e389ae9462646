/** The optional value shared by the other modules: a pointer that may be NULL. */
module Wrappers {

  datatype Option<+T> = None | Some(value: T)
}
