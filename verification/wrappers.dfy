/** The optional-value datatype used for decoded fields and boot times. */
module Wrappers {

  datatype Option<+T> = None | Some(value: T)
}
