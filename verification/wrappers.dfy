/** Optional values and success-or-failure results, used where the source
    returns None or lets an exception escape. */
module Wrappers {

  datatype Option<+T> = None | Some(value: T)

  datatype Result<+T, +E> = Ok(value: T) | Err(error: E)
}
