/** The option type used for values that JavaScript represents as `undefined` or `null`. */
module Wrappers {

  datatype Option<+T> = None | Some(value: T)
}
