/** The optional-value type shared by every module of the model. */
module Wrappers {

  /** A value that may be absent: an unset field, an unanswered lookup. */
  datatype Option<+T> = None | Some(value: T)
}
