/** Failure-compatible wrappers shared by the other modules: Kotlin's nullable
    `T?` becomes `Option<T>`, and an operation that can throw returns a `Result`. */
module Wrappers {

  datatype Option<+T> = None | Some(value: T)

  datatype Result<+R, +E> = Success(value: R) | Failure(error: E)
}
