/** Optional values and error returns, standing for Go's nil references, `value, ok` pairs and `error`s. */
module Wrappers {
  datatype Option<+T> = None | Some(value: T)

  datatype Result<+T> = Ok(value: T) | NotFound | AlreadyExists | InvalidArgument | FailedPrecondition

  /** What a Go `range` over a map yields next: any of the keys that are left. */
  method AnyOf<T>(keys: set<T>) returns (k: T)
    requires keys != {}
    ensures k in keys
  {
    k :| k in keys;
  }
}
