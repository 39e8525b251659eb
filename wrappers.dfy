/** Optional values (a JavaScript `undefined`) and results that may carry an
    error message (a thrown `Error`). */
module Wrappers {

  datatype Option<T> = None | Some(value: T)

  datatype Result<T, E> = Ok(value: T) | Err(error: E)
}
