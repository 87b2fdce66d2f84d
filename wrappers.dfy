/** Option and Result, the two failure-carrying shapes the rest of the model uses
    for JavaScript's `null`/`undefined` and for thrown errors. */
module Wrappers {

  datatype Option<+T> = None | Some(value: T)

  datatype Result<+T, +E> = Ok(value: T) | Err(error: E)
}
