/** The dynamic JavaScript values a request payload can carry, and the two
    tests the request validators apply to them. */
module JsValues {

  /** A JavaScript value. Numbers are modelled as integers. */
  datatype JsValue =
    | Undefined
    | Null
    | Bool(b: bool)
    | Num(n: int)
    | Str(s: string)
    | Arr(elems: seq<JsValue>)
    | Obj(props: map<string, JsValue>)

  /** JavaScript truthiness: `undefined`, `null`, `false`, `0` and `""` are
      falsy; every array and object, even an empty one, is truthy. */
  predicate Truthy(v: JsValue) {
    match v
    case Undefined => false
    case Null => false
    case Bool(b) => b
    case Num(n) => n != 0
    case Str(s) => |s| > 0
    case Arr(_) => true
    case Obj(_) => true
  }

  /** `typeof v === 'string'`. */
  predicate IsString(v: JsValue) {
    v.Str?
  }

  /** A payload object: the own properties of a plain JavaScript object. */
  type Payload = map<string, JsValue>

  /** Property access with destructuring semantics: a missing key reads as
      `undefined`. */
  function Get(p: Payload, key: string): JsValue {
    if key in p then p[key] else Undefined
  }
}
