/** Failure-compatible wrappers shared by the whole model: `Option` for the
    source's `std::optional` and null pointers, `Result` for `std::expected`
    and for thrown exceptions. */
module Wrappers {

  datatype Option<+T> = None | Some(value: T)

  datatype Result<+R, +E> = Success(value: R) | Failure(error: E)
}
