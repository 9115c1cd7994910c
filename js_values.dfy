/** JSON-shaped JavaScript values as they arrive in a request body, with the
    truthiness that `!x` and `x || y` test. Numbers are integers here. */
module JsValues {

  datatype JsValue =
    | Undefined
    | Null
    | Bool(b: bool)
    | Num(n: int)
    | Str(s: string)
    | Arr(items: seq<JsValue>)
    | Obj(fields: map<string, JsValue>)

  /** JavaScript truthiness: `undefined`, `null`, `false`, `0` and `""` are falsy;
      every array and object, the empty ones included, is truthy. */
  predicate Truthy(v: JsValue) {
    match v
    case Undefined => false
    case Null => false
    case Bool(b) => b
    case Num(n) => n != 0
    case Str(s) => s != ""
    case Arr(_) => true
    case Obj(_) => true
  }

  /** Property access on an object body: a missing key reads as `undefined`. */
  function Get(fields: map<string, JsValue>, key: string): JsValue {
    if key in fields then fields[key] else Undefined
  }
}
