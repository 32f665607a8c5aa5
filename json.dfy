/** The JSON values a request body or query string can carry, and JavaScript truthiness. */
module Json {
  import opened Wrappers

  datatype JsValue = Undefined | Null | Bool(b: bool) | Num(n: real) | Str(s: string)

  /** `!!v`: false exactly for `undefined`, `null`, `false`, `0` and `""`. */
  predicate Truthy(v: JsValue) {
    match v
    case Undefined => false
    case Null => false
    case Bool(b) => b
    case Num(n) => n != 0.0
    case Str(s) => s != ""
  }

  /** `!!v` for a string field that may be absent: present and not empty. */
  predicate Given(v: Option<string>) {
    v.Some? && v.value != ""
  }
}
