/**
 The feature record that connects the two stages: a mapping from feature name to a
 value. The values the feature engineer writes are numbers, the `is_valid` flag, the
 per-interval path rows and the echoed click list; an analyzer that reads a key may
 find any of them, or nothing.
 */
module Features {
  import opened Records

  datatype Value =
    | Num(n: real)
    | Flag(b: bool)
    | Rows(rows: seq<map<string, real>>)
    | Events(rs: seq<Record>)

  type FeatureMap = map<string, Value>

  /** Values that Python's `<`, `>` and `*` accept as numbers (a bool is an int there). */
  predicate IsNumber(v: Value) {
    v.Num? || v.Flag?
  }

  function AsReal(v: Value): real
    requires IsNumber(v)
  {
    match v
    case Num(n) => n
    case Flag(b) => if b then 1.0 else 0.0
  }

  /** Python truthiness of a value. */
  predicate Truthy(v: Value) {
    match v
    case Num(n) => n != 0.0
    case Flag(b) => b
    case Rows(rows) => |rows| > 0
    case Events(rs) => |rs| > 0
  }

  /** `features.get(key)`. */
  function Get(f: FeatureMap, key: string): Option<Value> {
    if key in f then Some(f[key]) else None
  }

  /** `features.get(key, default)`. */
  function GetOr(f: FeatureMap, key: string, default: Value): Value {
    if key in f then f[key] else default
  }
}
