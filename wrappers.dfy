/** Optional values and results with an error case, as the TypeScript code
    expresses them with `null`/`undefined` and with thrown errors. */
module Wrappers {

  datatype Option<+T> = None | Some(value: T)

  datatype Result<+T, +E> = Ok(value: T) | Err(error: E)
}
