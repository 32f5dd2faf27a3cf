/** Wrappers shared by the rest of the model.
    `Option` stands for a TypeScript value that may be `undefined`;
    `Result` carries either a value or the reason the model cannot produce
    one, and supports the `:-` early-return operator. */
module Wrappers {

  datatype Option<+T> = None | Some(value: T)

  datatype Result<+R, +E> = Success(value: R) | Failure(error: E) {

    predicate IsFailure() {
      Failure?
    }

    function PropagateFailure<U>(): Result<U, E>
      requires Failure?
    {
      Failure(error)
    }

    function Extract(): R
      requires Success?
    {
      value
    }
  }
}
