/** An optional value: an omitted argument, a missing row, or the absence of a result. */
module Wrappers {
  datatype Option<+T> = None | Some(value: T)
}
