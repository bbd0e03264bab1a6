/** Python's `None`-or-value, used for optional settings, the captured group
    of a regular-expression search, and collaborator calls that may fail. */
module Options {

  datatype Option<+T> = None | Some(value: T)

  /** Python truthiness of an optional string: present and non-empty. */
  predicate Truthy(s: Option<string>) {
    s.Some? && s.value != ""
  }
}
