/** An optional value: the compiler's "maybe undefined" answers. */
module Wrappers {
  datatype Option<+T> = None | Some(value: T)
}
