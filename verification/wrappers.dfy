/** Option and Result values used wherever the Go code returns a value
    together with an `error`, or a value that may be absent. */
module Wrappers {

  datatype Option<+T> = None | Some(value: T)

  /** `Ok(v)` is a call that returned `(v, nil)`; `Err(e)` one that returned a non-nil error `e`. */
  datatype Result<+T, +E> = Ok(value: T) | Err(error: E)
}
