/** The optional-value datatype used where the source returns or passes `null`. */
module Wrappers {

  datatype Option<+T> = None | Some(value: T)
}
