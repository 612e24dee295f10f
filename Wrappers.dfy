/** Stand-in for a nullable reference: `None` is C#'s `null`. */
module Wrappers {
  datatype Option<+T> = None | Some(value: T)
}
