/** A value that may be absent: stands for TypeScript's `T | null` and for `undefined`. */
module Wrappers {
  datatype Option<+T> = None | Some(value: T)
}
