/** The optional value used where Java has a nullable reference or a
    checked failure that the caller turns into a fallback. */
module Wrappers {

  datatype Option<+T> = None | Some(value: T)
}
