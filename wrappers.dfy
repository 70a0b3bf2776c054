/** A value that may be missing: the model's stand-in for a numpy result that is not a finite number. */
module Wrappers {
  datatype Option<+T> = None | Some(value: T)
}
