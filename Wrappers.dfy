/** Failure-carrying return values: a JavaScript `null`/`undefined` becomes
    `None`, a thrown or rejected error becomes `Err`. */
module Wrappers {

  datatype Option<+T> = None | Some(value: T)

  datatype Result<+T, +E> = Ok(value: T) | Err(error: E)
}
