/** Failure-compatible result types shared by the modules of this model. */
module Wrappers {

  /** A value that may be absent; `None` stands for Python's `None`. */
  datatype Option<+T> = None | Some(value: T)

  /** The outcome of an operation that raises on some inputs. */
  datatype Result<+R, +E> = Ok(value: R) | Err(error: E)
}
