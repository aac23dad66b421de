/** The optional pressed key and the engine's result type, which carries a fatal outcome on failure. */
module Wrappers {

  datatype Option<+T> = None | Some(value: T)

  datatype Result<+R, +E> = Success(value: R) | Failure(error: E)
}
