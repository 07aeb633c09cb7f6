/** Failure-carrying results shared by every module: the Python exceptions the
    modelled code raises become values of `Error`. */
module Base {

  /** The exceptions the modelled code can raise, named after the Python class. */
  datatype Error =
    | KeyError(key: string)           // a missing dictionary key
    | IndexError                      // a list index out of range
    | ValueError(text: string)        // int() applied to a non-integer text
    | TypeError(what: string)         // an operand or key of the wrong type
    | AttributeError(name: string)    // a missing attribute
    | AssertionError(what: string)    // a failed `assert`
    | NotImplementedError(what: string)
    | IOError(what: string)
    | NameError(name: string)         // a name used before it is bound

  datatype Option<+T> = None | Some(value: T)

  datatype Result<+T> = Success(value: T) | Failure(error: Error) {
    predicate IsFailure() { Failure? }
    function PropagateFailure<U>(): Result<U>
      requires Failure?
    {
      Failure(error)
    }
    function Extract(): T
      requires Success?
    {
      value
    }
  }

  /** A result that carries no value: the call either returns or raises. */
  datatype Outcome = Pass | Fail(error: Error) {
    predicate IsFailure() { Fail? }
    function PropagateFailure(): Outcome
      requires Fail?
    {
      this
    }
  }
}
