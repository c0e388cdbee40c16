/** Values shared by the dashboard's controllers. */
module Common {

  /** A nullable value: `null` in the dashboard's state hooks. */
  datatype Option<+T> = None | Some(value: T)

  /** JavaScript truthiness of a `string | null` field: `null` and the empty
      string are falsy, every other string is truthy. The views test their
      `error` field this way (`error && ...`, `!error`). */
  predicate Truthy(s: Option<string>)
  {
    s.Some? && s.value != ""
  }
}
