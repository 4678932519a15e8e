/** Option and Result: pandas' missing value (NaN / NaT) and a stage that can fail. */
module Wrappers {

  /** A value that may be missing; `None` plays the part of a NaN or NaT cell. */
  datatype Option<+T> = None | Some(value: T)

  /** The outcome of a stage that raises on some inputs. */
  datatype Result<+R, +E> = Success(value: R) | Failure(error: E)
}
