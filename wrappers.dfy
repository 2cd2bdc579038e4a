/** Stock optional value, used for the caller's identity and for lookups. */
module Wrappers {

  datatype Option<+T> = None | Some(value: T)
}
