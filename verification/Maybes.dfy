/** A value that may be missing: what the C++ code returns as a null pointer. */
module Maybes {

  datatype Maybe<+T> = None | Some(value: T)
}
