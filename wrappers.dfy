/** Optional values and results with an error, for the decoder's error
    returns and Python's `None`. */
module Wrappers {

  datatype Option<T> = None | Some(value: T)

  datatype Result<T, E> = Ok(value: T) | Err(error: E)
}
