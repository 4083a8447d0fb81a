module Wrappers {

  /** std::optional. */
  datatype Option<+T> = None | Some(value: T) {
    function ValueOr(default: T): T {
      match this
      case Some(v) => v
      case None => default
    }
  }
}
