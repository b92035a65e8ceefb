/** Optional values: `None` stands for "nothing there" (no qualifying file,
    or a language detector that raised instead of answering). */
module Wrappers {

  datatype Option<+T> = None | Some(value: T) {

    /** The value, or `default` when there is none. */
    function GetOr(default: T): T {
      match this
      case Some(v) => v
      case None => default
    }
  }
}
