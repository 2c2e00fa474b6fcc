/** Optional values: JavaScript's `undefined` and the failure path of a parse. */
module Options {

  datatype Option<+T> = None | Some(value: T)

  /** The result of an operation that can throw, as `Promise` rejection or `catch`. */
  datatype Result<+T, +E> = Success(value: T) | Failure(error: E)
}
