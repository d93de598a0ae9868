/** The failures a cell encoding can end in, and the failure-compatible
    carriers the encoders return instead of throwing. */
module Outcomes {

  datatype Option<+T> = None | Some(value: T) {
    predicate IsFailure() { None? }
    function PropagateFailure<U>(): Option<U>
      requires None?
    {
      None
    }
    function Extract(): T
      requires Some?
    {
      value
    }
  }

  /** RangeError: a value does not fit its declared width (or is negative);
      CapacityError: a cell would exceed 1023 bits or 4 references;
      LimitExceeded: a batch mint is given more than 250 items;
      UnsafeKey: a dictionary key is not a safe JavaScript integer. */
  datatype BuildError = RangeError | CapacityError | LimitExceeded | UnsafeKey

  datatype Result<+T> = Success(value: T) | Failure(error: BuildError) {
    predicate IsFailure() { Failure? }
    function PropagateFailure<U>(): Result<U>
      requires Failure?
    {
      Failure(error)
    }
    function Extract(): T
      requires Success?
    {
      value
    }
  }

  /** The result of an operation that changes a builder and returns nothing. */
  datatype Outcome = Pass | Fail(error: BuildError) {
    predicate IsFailure() { Fail? }
    function PropagateFailure<U>(): Result<U>
      requires Fail?
    {
      Failure(error)
    }
  }
}
