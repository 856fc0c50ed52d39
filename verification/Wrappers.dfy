/** Optional values and results, in the shape the source's (value, ok) and (value, error) pairs take here. */
module Wrappers {

  datatype Option<+T> = None | Some(value: T) {
    function GetOr(default: T): T {
      match this
      case Some(v) => v
      case None => default
    }
  }

  datatype Result<+T, +E> = Ok(value: T) | Err(error: E)

  /** How a request to another process ends; an unheard one took effect although the caller sees an error. */
  datatype Reply = Done | Unheard | Failed
}
