/** Optional values, as the source's `undefined` fields and absent query parameters. */
module Wrappers {

  datatype Option<+T> = None | Some(value: T)

  /** The supplied value, or `d` when absent. */
  function Or<T>(o: Option<T>, d: T): T {
    if o.Some? then o.value else d
  }

  /** `value || d` on an optional string: the value when truthy, otherwise `d`. */
  function OrTruthy(o: Option<string>, d: string): string {
    if Truthy(o) then o.value else d
  }

  /** A document id (`_id`); the store hands out fresh ones. */
  type Id = nat

  /** JavaScript truthiness of an optional string field: present and not the empty string. */
  predicate Truthy(o: Option<string>) {
    o.Some? && o.value != ""
  }
}
