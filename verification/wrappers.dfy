/** `Option` stands for Java's `Optional` and for a nullable reference;
    `Result` for a value or the exception thrown in its place. */
module Wrappers {

  datatype Option<+T> = None | Some(value: T)

  datatype Result<+R, +E> = Success(value: R) | Failure(error: E)
}
