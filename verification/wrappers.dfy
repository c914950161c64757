/** Small failure-carrying datatypes shared by the other modules. */
module Wrappers {

  /** An optional value, standing for Swift's `T?`. */
  datatype Option<+T> = None | Some(value: T)

  /** Either a constructed value or the reason construction stopped. */
  datatype Result<+T, +E> = Success(value: T) | Failure(error: E)
}
