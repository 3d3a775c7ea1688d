/** Optional values, used wherever the source uses std::optional, a nullable
    pointer, or a lookup that can miss. */
module Wrappers {

  datatype Option<+T> = None | Some(value: T) {

    /** Returns the value in Some, or a default when None (std::optional::value_or). */
    function GetOr(default: T): T {
      match this
      case Some(v) => v
      case None => default
    }
  }
}
