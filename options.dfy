/** The optional value used for JavaScript's `undefined` and for missing JSON fields,
    and the result of an operation that can throw. */
module Options {
  datatype Option<+T> = None | Some(value: T)

  datatype Result<+T, +E> = Success(value: T) | Failure(error: E)
}
