/** An optional value: a form field that may be unset, or a parse that may fail. */
module Wrappers {
  datatype Option<+T> = None | Some(value: T)
}
