/** The optional and failing results used across the model. */
module Wrappers {
  datatype Option<+T> = None | Some(value: T)

  /** Go's `error` result: nil or some error value, whose text is not modelled. */
  datatype Error = Nil | Failed
}
