/** Option and Result values for the error paths of the card model. */
module Wrappers {

  /** `None` stands for Python's "no value" answers, such as a comparison
      method returning `NotImplemented`. */
  datatype Option<+T> = None | Some(value: T)

  /** `Failure` stands for an exception raised by the operation. */
  datatype Result<+R, +E> = Success(value: R) | Failure(error: E)
}
