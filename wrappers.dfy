/** Rust's `Option` and `Result`, as used by every conversion of the model. */
module Wrappers {

  datatype Option<+T> = None | Some(value: T)

  datatype Result<+T, +E> = Ok(value: T) | Err(error: E) {

    /** Rust's `Result::map_err`: keeps a success, rewrites an error with `f`. */
    function MapErr<E2>(f: E -> E2): Result<T, E2>
    {
      match this
      case Ok(v) => Ok(v)
      case Err(e) => Err(f(e))
    }
  }
}
