/** Optional values: `None` stands for a JavaScript property that is absent,
    `undefined`, `null` or otherwise falsy, `Some` for one that is present. */
module Wrappers {

  datatype Option<+T> = None | Some(value: T) {

    /** The encapsulated value, or `default` when there is none. */
    function GetOr(default: T): T {
      match this
      case Some(v) => v
      case None => default
    }
  }
}
