/** Optional values (a TypeScript `undefined`-able field) and results with an error side
    (a thrown `Error` in the source). */
module Wrappers {

  datatype Option<T> = None | Some(value: T)

  datatype Result<T, E> = Ok(value: T) | Err(error: E)
}
