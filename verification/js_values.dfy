/** The few JavaScript value conventions both components rely on: a value that
    may be `null`, the truthiness test `if (x)` on such a value when it holds a
    string, and the `a || b` idiom that substitutes a fallback for an empty
    message. */
module JsValues {

  /** A value or JavaScript `null`. */
  datatype Option<T> = None | Some(value: T)

  /** JavaScript truthiness of a string that may be `null`: `null` and the
      empty string are falsy, every other string is truthy. */
  predicate Truthy(x: Option<string>)
  {
    x.Some? && x.value != ""
  }

  /** `message || fallback` for strings: the message itself unless it is empty. */
  function OrElse(message: string, fallback: string): (r: string)
    requires fallback != ""
    ensures r != ""
    ensures message != "" ==> r == message
    ensures r == message || r == fallback
  {
    if message != "" then message else fallback
  }
}
