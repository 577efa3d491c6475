/** Optional values and the Python exceptions the modelled code can raise. */
module Wrappers {

  /** A value that may be absent: Python's `None`, `NaN` or `False` sentinel. */
  datatype Option<T> = None | Some(value: T)

  /** The kind of exception a Python operation raises instead of returning. */
  datatype Failure =
    | AssertionFailed   // an `assert` statement failed
    | IndexOutOfRange   // IndexError
    | KeyMissing        // KeyError
    | ValueInvalid      // ValueError, e.g. `int("x")`
    | NameUnbound       // UnboundLocalError: a local read before any assignment
    | NoApiKey          // the NYT client's NoAPIKeyException

  /** Either the value an operation returns or the exception it raises. */
  datatype Result<T> = Ok(value: T) | Err(failure: Failure)
}
