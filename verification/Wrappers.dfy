/** The two result shapes used throughout: a value that may be absent, and a call that may raise. */
module Wrappers {

  datatype Option<+T> = None | Some(value: T)

  /** What a call hands back: a value, or the exception that escaped it. */
  datatype Result<+T> = Returned(value: T) | Raised
}
