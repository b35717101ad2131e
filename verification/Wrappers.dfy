/** A value that may be absent. */
module Wrappers {
  datatype Option<+T> = None | Some(value: T) {
    function Map<U>(f: T -> U): Option<U> {
      match this
      case None => None
      case Some(v) => Some(f(v))
    }
  }
}
