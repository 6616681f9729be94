/** The optional value used for a note that may be missing (JavaScript's null or undefined). */
module Wrappers {

  datatype Option<T> = None | Some(value: T)
}
