/** The optional value used wherever the source may hold `null` or `undefined`. */
module Wrappers {
  datatype Option<+T> = None | Some(value: T)
}
