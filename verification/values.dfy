/**
 * The Python values a wgtray configuration holds (it is a JSON object read
 * into a dict), with Python's truthiness, `dict.get` and `==` on them.
 */
module Values {

  /** A configuration value. `Null` is Python's None (JSON null); `Other`
      stands for any other JSON value (a float, a list, an object), of which
      only its truthiness matters here. */
  datatype Value = Null | Bool(b: bool) | Int(i: int) | Str(s: string) | Other(truthy: bool)

  /** Python's `bool(v)`. */
  predicate Truthy(v: Value) {
    match v
    case Null => false
    case Bool(b) => b
    case Int(i) => i != 0
    case Str(s) => s != ""
    case Other(t) => t
  }

  /** `config.get(key, default)`. */
  function Get(config: map<string, Value>, key: string, default: Value): (v: Value)
    ensures key in config ==> v == config[key]
    ensures key !in config ==> v == default
  {
    if key in config then config[key] else default
  }

  /** Python's `==` on two values: like Dafny's, except that True == 1 and False == 0. */
  predicate PyEqual(a: Value, b: Value) {
    match (a, b)
    case (Bool(x), Int(y)) => (if x then 1 else 0) == y
    case (Int(x), Bool(y)) => x == (if y then 1 else 0)
    case _ => a == b
  }
}
