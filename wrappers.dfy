/** An optional value: JavaScript's `undefined`/`null` versus a present value. */
module Wrappers {

  datatype Option<+T> = None | Some(value: T)

  /** JavaScript truthiness of a value that is either absent or a string:
      `undefined`, `null` and the empty string are falsy, every other string is truthy. */
  predicate Truthy(o: Option<string>)
    ensures !Truthy(o) <==> o in {None, Some("")}
  {
    o.Some? && o.value != ""
  }
}
