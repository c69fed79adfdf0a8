/** The usual optional value: `None` stands for JavaScript's `null`/`undefined`
    or Python's `None`, depending on the module that uses it. */
module Wrappers {
  datatype Option<+T> = None | Some(value: T) {
    function GetOr(default: T): T {
      match this
      case Some(v) => v
      case None => default
    }
  }
}
