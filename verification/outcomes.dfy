/** Optional values and results with an error, as used throughout the model
    (a JavaScript `undefined`/`null` slot, a rejected promise). */
module Outcomes {

  datatype Option<+T> = None | Some(value: T)

  datatype Result<+T, +E> = Ok(value: T) | Err(error: E)
}
