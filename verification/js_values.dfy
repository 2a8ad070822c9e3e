/** The JavaScript values the handler reads from its request body, its
    environment and the upstream error, and the truthiness tests it applies
    to them (`!nome`, `!API_KEY`, `a || b || fallback`). */
module JsValues {

  /** A property that is either `undefined` or holds a value. */
  datatype Optional<T> = Undefined | Defined(value: T)

  /** JavaScript truthiness of a value that is either `undefined` or a string:
      `undefined` and the empty string are falsy, every other string is truthy. */
  predicate Truthy(o: Optional<string>)
  {
    o.Defined? && o.value != ""
  }

  /** The JavaScript expression `a || b || fallback` over optional strings:
      the first truthy operand, or the fallback when neither is truthy. */
  function FirstTruthy(a: Optional<string>, b: Optional<string>, fallback: string): (r: string)
    ensures Truthy(a) ==> r == a.value
    ensures !Truthy(a) && Truthy(b) ==> r == b.value
    ensures !Truthy(a) && !Truthy(b) ==> r == fallback
    ensures fallback != "" ==> r != ""
  {
    if Truthy(a) then a.value else if Truthy(b) then b.value else fallback
  }
}
