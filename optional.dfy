/** JavaScript's `undefined` for a value that may be absent: an optional prop,
    an unset state cell, a key missing from a partial record. */
module Optional {

  datatype Option<+T> = None | Some(value: T) {

    /** The value, or `default` when absent (a destructuring default `x = d`). */
    function GetOr(default: T): T {
      match this
      case Some(v) => v
      case None => default
    }
  }
}
