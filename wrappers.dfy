/** Small value wrappers shared by the model: an optional value (the source's
    nullptr / null / undefined) and the outcome of an operation that can throw. */
module Wrappers {

  datatype Option<+T> = None | Some(value: T)

  /** `Fail` stands for an exception the source throws to its caller. */
  datatype Outcome<+E> = Pass | Fail(error: E)
}
