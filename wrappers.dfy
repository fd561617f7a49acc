/** The optional value and the success-or-error value the model's lookups and
    fallible operations return. */
module Wrappers {

  datatype Option<+T> = None | Some(value: T)

  datatype Result<+R, +E> = Success(value: R) | Failure(error: E)
}
