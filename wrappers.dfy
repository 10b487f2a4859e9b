/** Optional values and results with an error message, used for
    FinSim's `False` returns and raised errors. */
module Wrappers {
  datatype Option<+T> = None | Some(value: T)

  datatype Result<+T> = Ok(value: T) | Err(message: string)

  /** The outcome of an operation that returns nothing but may raise. */
  datatype Outcome = Pass | Fail(message: string)
}
