/** Rust's `Option`, used for absent map entries and optional envelope fields. */
module Wrappers {

  datatype Option<T> = None | Some(value: T) {

    /** `unwrap_or(default)` */
    function GetOr(default: T): T {
      match this
      case Some(v) => v
      case None => default
    }
  }
}
