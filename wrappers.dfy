// Optional values and results with an error message, for the source's
// `undefined`/`null` returns and its thrown or rejected errors.
module Wrappers {

  datatype Option<T> = None | Some(value: T)

  datatype Result<T> = Ok(value: T) | Err(error: string)
}
