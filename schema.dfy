/** What every zod object schema of the application shares: the shape of a parse result and
    the meaning of required and optional string fields. */
module Schema {
  import opened Common

  /** The result of `safeParse`: the parsed data, or the set of field paths that have issues. */
  datatype Validation<+T> = Accepted(value: T) | Rejected(fields: set<string>)

  /** A required string field that must satisfy `ok`. */
  predicate RequiredOk(o: Option<string>, ok: string -> bool)
  {
    o.Some? && ok(o.value)
  }

  /** An optional string field: absent, or satisfying `ok`. */
  predicate OptionalOk(o: Option<string>, ok: string -> bool)
  {
    o.None? || ok(o.value)
  }

  /** The field path, when the field fails its schema. */
  function IssueAt(field: string, ok: bool): set<string>
  {
    if ok then {} else {field}
  }
}
