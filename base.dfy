/** Shared value types: octets, and the Option/Result wrappers used for the
    source's `None` values and raised exceptions. */
module Base {

  /** One octet of a DNS wire-format buffer. */
  newtype byte = x: int | 0 <= x < 256

  datatype Option<+T> = None | Some(value: T) {
    function GetOr(default: T): T {
      match this
      case Some(v) => v
      case None => default
    }
  }

  datatype Result<+T, +E> = Ok(value: T) | Err(error: E)
}
