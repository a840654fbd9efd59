/** The dynamically typed values that cross the widget boundary (JSON as seen by JavaScript and Python). */
module Json {
  import opened Wrappers

  datatype Value =
    | Null
    | Bool(b: bool)
    | Num(n: real)
    | Str(s: string)
    | Arr(items: seq<Value>)
    | Obj(fields: map<string, Value>)

  /** JavaScript truthiness of a value (`if (v)`). */
  predicate Truthy(v: Value) {
    match v
    case Null => false
    case Bool(b) => b
    case Num(n) => n != 0.0
    case Str(s) => s != []
    case Arr(_) => true
    case Obj(_) => true
  }

  /** Property access `v.k`: present only on an object that has the key. */
  function Field(v: Value, k: string): (r: Option<Value>)
    ensures r.Some? <==> v.Obj? && k in v.fields
    ensures r.Some? ==> r.value == v.fields[k]
  {
    if v.Obj? && k in v.fields then Some(v.fields[k]) else None
  }

  /** The properties that an object spread `{...v}` copies; `undefined` and `null` copy nothing. */
  function Spread(v: Option<Value>): map<string, Value> {
    if v.Some? && v.value.Obj? then v.value.fields else map[]
  }
}
