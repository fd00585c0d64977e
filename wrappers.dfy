/** Option and Result, the stock failure-carrying datatypes. A thrown exception in the
    modelled code becomes an `Err`; a returned value becomes an `Ok`. */
module Wrappers {

  datatype Option<+T> = None | Some(value: T)

  datatype Result<+T, +E> = Ok(value: T) | Err(error: E) {
    predicate IsFailure() { Err? }

    function PropagateFailure<U>(): Result<U, E>
      requires Err?
    {
      Err(error)
    }

    function Extract(): T
      requires Ok?
    {
      value
    }
  }

  /** The unit value returned by an operation that only succeeds or throws. */
  datatype Unit = Unit
}
