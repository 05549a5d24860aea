/** Optional values: the model's stand-in for JavaScript's `null`/`undefined`
    and for an operation that throws before producing a value. */
module Wrappers {

  datatype Option<+T> = None | Some(value: T) {

    /** The wrapped value, or `default` when there is none (JavaScript's `x ?? d`). */
    function GetOr(default: T): T {
      match this
      case Some(v) => v
      case None => default
    }
  }

  /** JavaScript truthiness of an optional string field: present and not "". */
  predicate Present(field: Option<string>) {
    field.Some? && field.value != ""
  }
}
