/** The option type the models use for the source's `null` and `undefined`. */
module Wrappers {
  datatype Option<+T> = None | Some(value: T)
}
