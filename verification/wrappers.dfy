/** Java's nullable references, as an explicit option. */
module Wrappers {

  datatype Option<+T> = None | Some(value: T) {

    /** `map` on the present value: `s == null ? null : f(s)`. */
    function Map<U>(f: T -> U): Option<U> {
      match this
      case Some(v) => Some(f(v))
      case None => None
    }
  }
}
