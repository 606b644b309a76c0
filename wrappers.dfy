/** Optional values, standing for Python's `None` / `dict.get` results. */
module Wrappers {

  datatype Option<+T> = None | Some(value: T)

  /** The value carried by `o`, or `default` when there is none (`dict.get(key, default)`). */
  function GetOr<T>(o: Option<T>, default: T): T
  {
    match o
    case Some(v) => v
    case None => default
  }
}
