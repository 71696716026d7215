/** The optional value that stands for JavaScript's `null` results and for `NaN`. */
module Wrappers {

  datatype Option<+T> = None | Some(value: T)
}
