/** Failure-carrying results shared by every module of the model. */
module Wrappers {

  /** A value that may be absent; stands for Java's `null` and `Optional`. */
  datatype Option<T> = None | Some(value: T)

  /** The outcome of an operation that either returns a value or throws.
      `Err` carries the exception's message exactly as the source writes it. */
  datatype Result<T> = Ok(value: T) | Err(msg: string)
  {
    predicate IsFailure() { Err? }

    function PropagateFailure<U>(): Result<U>
      requires Err?
    {
      Err(msg)
    }

    function Extract(): T
      requires Ok?
    {
      value
    }
  }
}
