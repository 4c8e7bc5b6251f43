/** Option values: a dictionary key that may be absent, a lookup that may miss. */
module Wrappers {

  datatype Option<+T> = None | Some(value: T) {

    /** The value when present, otherwise `default` (Python's `d.get(key, default)`). */
    function GetOr(default: T): T {
      match this
      case Some(v) => v
      case None => default
    }
  }

  /** Python truthiness of an optional string or list: present and non-empty. */
  predicate Truthy<T>(o: Option<seq<T>>) {
    o.Some? && o.value != []
  }

  /** Python's `x or d` on an optional string or list. */
  function Or<T>(x: Option<seq<T>>, d: Option<seq<T>>): Option<seq<T>> {
    if Truthy(x) then x else d
  }
}
