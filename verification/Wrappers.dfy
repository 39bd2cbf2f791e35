/** The null-or-value shape used wherever the C library returns a pointer that may be NULL. */
module Wrappers {

  datatype Option<T> = None | Some(value: T)
}
