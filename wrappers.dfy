/** Java's nullable references and thrown exceptions, as values. */
module Wrappers {

  /** `None` stands for a Java `null` reference. */
  datatype Option<+T> = None | Some(value: T)

  /** Either a returned value or the exception the call throws. */
  datatype Result<+T, +E> = Success(value: T) | Failure(error: E)
}
