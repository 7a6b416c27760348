/** A value that may be absent: the model of a JSON field read with `dict.get`,
    which yields `None` when the field is missing. */
module Optional {

  datatype Option<+T> = None | Some(value: T)

  /** Python truthiness of an optional string: `None` and `""` are falsy. */
  predicate Truthy(s: Option<string>) {
    s.Some? && s.value != ""
  }
}
