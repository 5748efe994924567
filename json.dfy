/**
 * A field of a decoded JSON object, and the three ways the report script reads one.
 * A key can be missing, present with JSON null, or present with a value, and
 * Python's dict lookups treat the first two differently when a default is given.
 */
module Json {
  import opened Wrappers

  datatype Field<T> = Absent | Null | Present(value: T)

  /** `d.get(k)`: the value, or None when the key is missing or null. */
  function Get<T>(f: Field<T>): Option<T>
  {
    match f
    case Present(v) => Some(v)
    case _ => None
  }

  /** `d.get(k, default)`: the default only when the key is missing; None when it is null. */
  function GetOr<T>(f: Field<T>, default: T): Option<T>
  {
    match f
    case Absent => Some(default)
    case Null => None
    case Present(v) => Some(v)
  }

  /** A non-empty string is the only truthy string: `if t:` and `x or y` on strings. */
  predicate TruthyText(s: Option<string>)
  {
    s.Some? && s.value != ""
  }
}
