/** Shared value types: SQL NULL and identifiers. */
module Wrappers {

  /** A nullable column or an optional result. */
  datatype Option<+T> = None | Some(value: T)

  /** An ActivityPub IRI or a generated row id; only equality matters. */
  datatype Id = Id(text: string)

  /** Whether a JavaScript optional string is truthy: present and not empty. */
  predicate Truthy(s: Option<string>) {
    s.Some? && s.value != ""
  }
}
