/** The Some/None datatype, used where the C code has a pointer that may be NULL. */
module Wrappers {

  datatype Option<+T> = None | Some(value: T)
}
