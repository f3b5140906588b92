/** Small value types shared by the whole model. */
module Values {

  /** `T | null` in the dashboard's TypeScript. */
  datatype Option<+T> = None | Some(value: T)

  /** How an awaited call settled: it resolved with a value, or it threw. */
  datatype Outcome<+T> = Ok(value: T) | Fail {
    function GetOr(default: T): T {
      match this
      case Ok(v) => v
      case Fail => default
    }
  }

  /** JavaScript truthiness of a `string | null` value: null and "" are falsy. */
  predicate Truthy(s: Option<string>) {
    s.Some? && s.value != ""
  }
}
