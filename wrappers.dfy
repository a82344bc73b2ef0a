/** Optional values and results with an error, used for the registry's
    "absent" answers and for the exceptions its operations raise. */
module Wrappers {

  datatype Option<+T> = None | Some(value: T)

  datatype Result<+T, +E> = Ok(value: T) | Err(error: E)
}
