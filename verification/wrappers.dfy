/** The optional value used where the page either applies something or falls back. */
module Wrappers {

  datatype Option<+T> = None | Some(value: T)
}
