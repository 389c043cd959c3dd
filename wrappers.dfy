/** Option and Result, the two shapes the system uses for "maybe absent" and "may fail". */
module Wrappers {
  datatype Option<T> = None | Some(value: T)
  {
    function GetOr(default: T): T
    {
      match this
      case None => default
      case Some(v) => v
    }
  }

  datatype Result<T, E> = Ok(value: T) | Err(error: E)
  {
    function ToOption(): Option<T>
    {
      match this
      case Ok(v) => Some(v)
      case Err(_) => None
    }
  }

  /** The unit value of Rust's `Result<(), E>`. */
  datatype Unit = Unit
}
