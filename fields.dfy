/**
 * Request-body fields and the JavaScript truthiness the handlers test them
 * with (`if (!name || !slug)`). A field is `None` when the body lacks it.
 */
module Fields {
  import opened Wrappers

  /** A string field is truthy: present and not empty. */
  predicate Given(s: Option<string>) { s.Some? && s.value != "" }

  /** A number field is truthy: present and not 0. */
  predicate GivenNumber(n: Option<int>) { n.Some? && n.value != 0 }
}
