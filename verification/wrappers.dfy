/**
  Failure-carrying datatypes shared by the whole model.

  Guac signals every failure by raising a Python exception; here a raised
  exception is an `Err` carrying the kind of the exception, and every
  operation that can raise returns a `Result`.
 */
module Wrappers {

  datatype Option<+T> = None | Some(value: T)

  /** The kinds of exception the modelled code raises or lets through. */
  datatype Error =
    | EmptySequence      // ValueError: a monadic function that never yields
    | UnexpectedReturn   // ValueError: a monadic function that returns a truthy value
    | UnresolvedContext  // RuntimeError: no monad given and none to inherit
    | NotSupported       // AttributeError: `empty`/`concat` asked of a monad without them
    | TypeError          // Python's TypeError, e.g. iterating over an int

  /** Either a value or the exception that stopped the computation. */
  datatype Result<+T> = Ok(value: T) | Err(error: Error) {

    /** Python's sequencing of a call after another: a raised exception
        propagates unchanged and `f` is never called. */
    function AndThen<U>(f: T -> Result<U>): (r: Result<U>)
      ensures Err? ==> r == Err(error)
      ensures Ok? ==> r == f(value)
    {
      match this
      case Ok(v) => f(v)
      case Err(e) => Err(e)
    }
  }
}
