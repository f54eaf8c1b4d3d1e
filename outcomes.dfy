/** Optional values and success/failure results shared by the store models. */
module Outcomes {

  /** A value that may be absent: JavaScript's `T | undefined`. */
  datatype Option<+T> = None | Some(value: T)

  /** The outcome of an operation that can throw. */
  datatype Result<+T, +E> = Ok(value: T) | Err(error: E)

  /** The one error the stores throw: sign-up with a taken email or username. */
  datatype StoreError = UserAlreadyExists
}
