/** An optional value: JavaScript's `undefined`/`null` next to a real one. */
module Maybe {
  datatype Option<+T> = None | Some(value: T) {
    /** `x ?? d` / `x || d` for an optional value. */
    function GetOr(default: T): T {
      match this
      case Some(v) => v
      case None => default
    }
  }
}
