/** A value that may be missing: no reading, no file, a refusal. */
module Wrappers {
  datatype Option<+T> = None | Some(value: T)
}
