/** Option and Result values, and the ways a call into the engine can fail. */
module Wrappers {

  datatype Option<+T> = None | Some(value: T) {
    predicate IsFailure() { None? }

    function PropagateFailure<U>(): Option<U>
      requires None?
    {
      None
    }

    function Extract(): T
      requires Some?
    {
      value
    }

    function GetOr(default: T): T {
      match this
      case Some(v) => v
      case None => default
    }
  }

  /** How one parse call can end abnormally. The source never catches
      anything, so any of these aborts the whole call. */
  datatype Error =
    | TypeError                // a property read on null/undefined, a call of a non-function, ...
    | NotFound(ref: string)    // the explicit "Data Error! Notfoud" throw of the pointer resolver
    | StackOverflow            // unbounded recursion on a cycle of `$ref`s

  datatype Result<+R> = Ok(value: R) | Failure(error: Error) {
    predicate IsFailure() { Failure? }

    function PropagateFailure<U>(): Result<U>
      requires Failure?
    {
      Failure(error)
    }

    function Extract(): R
      requires Ok?
    {
      value
    }
  }
}
