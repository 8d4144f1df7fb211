/** The Option datatype that stands for JavaScript's nullable values. */
module Wrappers {

  datatype Option<+T> = None | Some(value: T)
}
