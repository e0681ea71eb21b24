/** Option and Result: the model's stand-ins for .NET's nullable references and exceptions. */
module Wrappers {

  /** `None` models a .NET `null` (or an absent `out` value); `Some(v)` a present one. */
  datatype Option<+T> = None | Some(value: T)

  /** `Failure(e)` models an exception `e` thrown by the operation; `Success(v)` its normal return. */
  datatype Result<+T, +E> = Success(value: T) | Failure(error: E)

  /** The result of an operation that returns nothing (`void`) but may throw. */
  datatype Outcome<+E> = Pass | Fail(error: E)
}
