/** Small failure-carrying datatypes shared by the other modules. */
module Wrappers {

  datatype Option<T> = None | Some(value: T) {
    /** The carried value, or `default` when there is none (Python's `dict.get(key, default)`). */
    function GetOr(default: T): T {
      match this
      case Some(v) => v
      case None => default
    }
  }

  datatype Result<T, E> = Ok(value: T) | Err(error: E)
}
