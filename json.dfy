/**
 * JavaScript values as the migration scripts handle them: parsed JSON
 * records and object literals, with `undefined` for a missing property.
 */
module Json {
  datatype JsVal =
    | Undefined
    | Null
    | Bool(b: bool)
    | Num(n: real)
    | Str(s: string)
    | Arr(elems: seq<JsVal>)
    | Obj(fields: map<string, JsVal>)

  /** A plain object: its own enumerable properties. */
  type Object = map<string, JsVal>

  /** Property access `o.key`: a missing property reads as `undefined`. */
  function Get(o: Object, key: string): JsVal {
    if key in o then o[key] else Undefined
  }

  /** JavaScript truthiness (NaN, the one other falsy number, is not modelled). */
  predicate Truthy(v: JsVal) {
    match v
    case Undefined => false
    case Null => false
    case Bool(b) => b
    case Num(n) => n != 0.0
    case Str(s) => s != ""
    case Arr(_) => true
    case Obj(_) => true
  }

  /** `v && typeof v === 'string'`: a non-empty string. */
  predicate NonEmptyString(v: JsVal) {
    v.Str? && v.s != ""
  }
}
