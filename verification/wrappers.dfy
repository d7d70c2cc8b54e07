/** The optional-value datatype used for every accept/reject result in the model. */
module Wrappers {

  /** `None` is a rejected parse or a missing element; `Some` carries the accepted value. */
  datatype Option<+T> = None | Some(value: T)
}
