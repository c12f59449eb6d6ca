/** The "value or nothing" type. The model uses it for JavaScript's `null` /
    `undefined` and for partial functions such as date parsing. */
module Wrappers {

  datatype Option<+T> = None | Some(value: T) {

    /** The held value, or `default` when there is none. */
    function GetOr(default: T): T {
      match this
      case Some(v) => v
      case None => default
    }

    /** JavaScript's nullish coalescing `this ?? other`: keeps a held value
        (even a falsy one such as 0 or ""), else falls back to `other`. */
    function OrElse(other: Option<T>): Option<T> {
      match this
      case Some(_) => this
      case None => other
    }
  }
}
