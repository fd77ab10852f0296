/** Failure-compatible wrappers shared by every module of the model. */
module Results {

  /** JavaScript's `undefined` (or an absent optional field) is `None`. */
  datatype Option<+T> = None | Some(value: T) {

    predicate IsFailure() {
      None?
    }

    function PropagateFailure<U>(): Option<U>
      requires None?
    {
      None
    }

    function Extract(): T
      requires Some?
    {
      value
    }

    /** The `x ?? d` operator. */
    function GetOr(default: T): T {
      match this
      case Some(v) => v
      case None => default
    }
  }

  /** A JavaScript operation that either returns a value or throws. */
  datatype Result<+R> = Success(value: R) | Failure(error: string) {

    predicate IsFailure() {
      Failure?
    }

    function PropagateFailure<U>(): Result<U>
      requires Failure?
    {
      Failure(error)
    }

    function Extract(): R
      requires Success?
    {
      value
    }
  }
}
