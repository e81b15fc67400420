/** Optional values and results with an error, shared by every module of the model. */
module Wrappers {

  datatype Option<+T> = None | Some(value: T) {
    function GetOr(default: T): T {
      match this
      case Some(v) => v
      case None => default
    }
  }

  datatype Result<+R, +E> = Ok(value: R) | Err(error: E)

  /** What a select query yields: its rows, which may be `null`, or an error, which is thrown. */
  datatype Reply<+T> = Rows(rows: Option<seq<T>>) | Failed
}
