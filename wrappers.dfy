/** Option and Result types shared by every module of the model. */
module Wrappers {
  /** A value that may be missing: Python's `None` or a dictionary lookup that found nothing. */
  datatype Option<T> = None | Some(value: T)
  {
    function GetOr(default: T): T
    {
      match this
      case None => default
      case Some(v) => v
    }
  }

  /** The outcome of an operation that raises in the source: `Err` carries the exception's kind. */
  datatype Result<T> = Ok(value: T) | Err(error: string)
}
