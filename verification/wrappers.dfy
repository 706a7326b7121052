/** Optional values and results with an error, used where the Python code
    returns None, checks a key with `in`, or raises. */
module Wrappers {

  datatype Option<+T> = None | Some(value: T)

  datatype Result<+T, +E> = Ok(value: T) | Err(error: E)
}
