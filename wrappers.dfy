/** A value that may be absent: the model's stand-in for a null pointer or a failed lookup. */
module Wrappers {
  datatype Option<+T> = None | Some(value: T)
}
