/** Option, standing for a JavaScript value that may be `null` or `undefined`. */
module Wrappers {

  datatype Option<+T> = None | Some(value: T)

  /** JavaScript truthiness of a value that is either absent or a string:
      `null`, `undefined` and the empty string are all falsy. */
  predicate Truthy(v: Option<string>) {
    v.Some? && v.value != ""
  }
}
