/**
 * JavaScript values as the modelled code sees them, and the JSON tree that `JSON.stringify`
 * writes and `JSON.parse` reads. Numbers are integers; objects are maps (key order is not kept).
 */
module Values {

  /** A JavaScript value. `Error` is an Error instance: its effective `name`, `message`,
      `stack` and `cause` (possibly inherited or absent, then `Undefined`) and its other own
      enumerable properties `own`. */
  datatype Value =
    | Undefined
    | Null
    | Bool(b: bool)
    | Num(n: int)
    | Str(s: string)
    | Arr(items: seq<Value>)
    | Obj(props: map<string, Value>)
    | Error(name: Value, message: Value, stack: Value, cause: Value, own: map<string, Value>)

  /** JavaScript truthiness (`!!v`). */
  predicate Truthy(v: Value) {
    match v
    case Undefined => false
    case Null => false
    case Bool(b) => b
    case Num(n) => n != 0
    case Str(s) => s != ""
    case _ => true
  }

  /** A JSON document. */
  datatype Json =
    | JNull
    | JBool(b: bool)
    | JNum(n: int)
    | JStr(s: string)
    | JArr(items: seq<Json>)
    | JObj(props: map<string, Json>)
}
