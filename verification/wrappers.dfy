/** Failure-carrying values used where the modelled Python code raises. */
module Wrappers {

  /** `None` stands for an exception escaping the modelled call; `Some` for a normal return. */
  datatype Option<+T> = None | Some(value: T)
}
