/** Values shared by every part of the model. */
module Common {

  /** A request-body field, a query result or a parse result that may be absent
      (`undefined`, `null` or `NaN` in the original program). */
  datatype Option<+T> = None | Some(value: T)

  /** JavaScript truthiness of an optional string: present and not the empty string. */
  predicate Truthy(v: Option<string>)
  {
    v.Some? && v.value != []
  }
}
