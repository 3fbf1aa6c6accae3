/** JavaScript value semantics shared by the modules: optional values and truthiness. */
module JsValues {

  /** A value that may be `undefined` (or `null`). */
  datatype Option<+T> = None | Some(value: T)

  /** Truthiness of an optional boolean: `undefined` and `false` are falsy. */
  predicate TruthyBool(b: Option<bool>) {
    b == Some(true)
  }

  /** Truthiness of an optional string: `undefined` and `""` are falsy. */
  predicate TruthyString(s: Option<string>) {
    s.Some? && s.value != ""
  }

  /** `s || fallback` for an optional string. */
  function OrElse(s: Option<string>, fallback: string): string
  {
    if TruthyString(s) then s.value else fallback
  }
}
