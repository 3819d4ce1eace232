/**
 * The JavaScript value rules the handlers lean on. A field of a request body
 * or a CSV row is either undefined or a string; the handlers test it with
 * `!x` and default it with `x || fallback`.
 */
module Js {
  import opened Wrappers

  /** A parsed CSV row: column header to cell text; a missing column is an absent key. */
  type Row = map<string, string>

  /** Truthiness of an optional string: undefined and '' are falsy. */
  predicate Truthy(v: Option<string>)
  {
    v.Some? && v.value != ""
  }

  /** `row[column]`, undefined when the column is absent. */
  function Field(row: Row, column: string): Option<string>
  {
    if column in row then Some(row[column]) else None
  }

  /** `v || fallback` */
  function Or(v: Option<string>, fallback: string): string
  {
    if Truthy(v) then v.value else fallback
  }
}
