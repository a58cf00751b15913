/** Option and Result: `null` returns and thrown exceptions of the C# code become values. */
module Wrappers {
  datatype Option<+T> = None | Some(value: T)

  datatype Result<+R, +E> = Success(value: R) | Failure(error: E)
}
