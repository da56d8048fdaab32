/** The Some/None datatype used wherever the source can yield `undefined`, `NaN` or no value. */
module Wrappers {
  datatype Option<+T> = None | Some(value: T)
}
