/** Optional values and fallible results, the shapes Rust's `Option` and `Result` take in this model. */
module Wrappers {

  datatype Option<T> = None | Some(value: T) {
    predicate IsSome() {
      Some?
    }

    function GetOr(default: T): T {
      match this
      case Some(v) => v
      case None() => default
    }
  }

  datatype Result<T, E> = Ok(value: T) | Err(error: E) {
    predicate IsOk() {
      Ok?
    }
  }
}
