/** Failure-compatible wrappers used throughout the model: `Option` for Go's
    nil-able values (a nil `error` is `None`) and `Result` for a value-or-error
    pair where exactly one side is meaningful. Go's `(value, error)` returns
    become `Result` only where the code ignores the value once the error is
    non-nil (`fetchFuncType`, a strategy's `Read`); where both halves travel
    on together, as the `(res, err)` that `Cache` stores and returns, the model
    keeps the pair (`Reflection.Return`). */
module Wrappers {

  datatype Option<+T> = None | Some(value: T)

  datatype Result<+R, +E> = Success(value: R) | Failure(error: E)
}
