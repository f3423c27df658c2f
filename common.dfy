/** Small shared vocabulary: optional values, identifiers and JavaScript truthiness. */
module Common {

  datatype Option<+T> = None | Some(value: T)

  /** Row identifiers (UUIDs generated by the store or by `randomUUID`). */
  type Id = string

  /** JavaScript truthiness of an optional string: present and not the empty string. */
  predicate Truthy(o: Option<string>)
  {
    o.Some? && o.value != ""
  }

  /** `addDurationToNow(ms)`: the instant `durationMs` milliseconds after `nowMs`. */
  function AddDurationToNow(nowMs: int, durationMs: int): int
  {
    nowMs + durationMs
  }
}
