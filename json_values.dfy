// The JSON values the scripts read and write: records are Python dicts
// decoded from JSON, whose fields hold strings, integers, null, lists of
// strings or nested objects.
module Json {
  import opened Wrappers
  import opened Text

  datatype Value =
    | Str(s: string)
    | Int(i: int)
    | Null
    | Strs(items: seq<string>)
    | Obj(fields: map<string, Value>)

  /** A decoded JSON object (a Python dict). */
  type Record = map<string, Value>

  /** Python truthiness of a decoded value. */
  predicate Truthy(v: Value) {
    match v
    case Str(s) => s != ""
    case Int(i) => i != 0
    case Null => false
    case Strs(xs) => xs != []
    case Obj(m) => m != map[]
  }

  /** `repr` of a string inside a list: single-quoted (escapes are not modelled). */
  function Quote(s: string): string {
    "'" + s + "'"
  }

  /** Python's `str(v)` (f-string interpolation) of a decoded value. */
  function PyStr(v: Value): string {
    match v
    case Str(s) => s
    case Int(i) => IntToString(i)
    case Null => "None"
    case Strs(xs) => "[" + Join(", ", seq(|xs|, k requires 0 <= k < |xs| => Quote(xs[k]))) + "]"
    case Obj(_) => "{...}"
  }

  /** `d.get(k)`, None for a missing key. */
  function Get(d: Record, k: string): Option<Value> {
    if k in d then Some(d[k]) else None
  }

  /** `d.get(k, default)` */
  function GetOr(d: Record, k: string, default: Value): Value {
    if k in d then d[k] else default
  }

  /** `d.get(k, default)` where a string is expected: its `str()`. */
  function GetStr(d: Record, k: string, default: string): string {
    if k in d then PyStr(d[k]) else default
  }

  /** The truthy string field `k`, or None (`x = d.get(k)` then `if x:`). */
  function TruthyStr(d: Record, k: string): Option<string> {
    if k in d && d[k].Str? && d[k].s != "" then Some(d[k].s) else None
  }

  /** The list of strings under `k`, or [] when the key is absent or holds
      something else (`d.get(k, [])` iterated as a list). */
  function GetStrs(d: Record, k: string): seq<string> {
    if k in d && d[k].Strs? then d[k].items else []
  }
}
