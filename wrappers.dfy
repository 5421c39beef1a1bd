/** An optional value: a recogniser output that survived validation, or a parse that succeeded. */
module Wrappers {
  datatype Option<+T> = None | Some(value: T)
}
