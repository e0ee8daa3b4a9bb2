/** Option and Result values used throughout the model for PHP's null and for
    operations that can abort with an exception. */
module Wrappers {

  datatype Option<+T> = None | Some(value: T) {
    /** PHP's `??`: the value, or the fallback when there is none. */
    function GetOr(default: T): T {
      match this
      case Some(v) => v
      case None => default
    }
  }

  datatype Result<+T> = Success(value: T) | Failure(error: string) {
    predicate IsFailure() {
      Failure?
    }

    function PropagateFailure<U>(): Result<U>
      requires Failure?
    {
      Failure(error)
    }

    function Extract(): T
      requires Success?
    {
      value
    }
  }
}
