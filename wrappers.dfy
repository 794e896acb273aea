/** Optional values and results with an error message, used wherever the
    backend returns `None` or raises and catches an exception. */
module Wrappers {

  datatype Option<+T> = None | Some(value: T)

  datatype Result<+T> = Ok(value: T) | Err(message: string)
}
