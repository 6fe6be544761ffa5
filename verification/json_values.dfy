/**
 * JSON document trees as the JSON Reference resolver hands them to the show
 * loader, together with the few JavaScript operators the loader applies to
 * them: truthiness, `typeof x === 'object'`, `Array.isArray` and `=== 1`.
 *
 * A value that may be JavaScript's `undefined` (a property the object does
 * not have) is an `Option<Json>`, with `None` standing for `undefined`.
 */
module JsonValues {
  import opened Wrappers

  /** Numbers are reals: parsing JSON never yields NaN or an infinity. */
  datatype Json =
    | Null
    | Bool(b: bool)
    | Num(n: real)
    | Str(s: string)
    | Arr(items: seq<Json>)
    | Obj(fields: map<string, Json>)

  /** JavaScript truthiness: undefined, null, false, 0 and "" are falsy. */
  predicate Truthy(v: Option<Json>) {
    match v
    case None => false
    case Some(j) =>
      match j
      case Null => false
      case Bool(b) => b
      case Num(n) => n != 0.0
      case Str(s) => s != ""
      case Arr(_) => true
      case Obj(_) => true
  }

  /** `typeof v === 'object'`, which also holds for null and for arrays. */
  predicate IsTypeofObject(v: Option<Json>) {
    v.Some? && (v.value.Null? || v.value.Arr? || v.value.Obj?)
  }

  /** `Array.isArray(v)`. */
  predicate IsArray(v: Option<Json>) {
    v.Some? && v.value.Arr?
  }

  /** `v === 1`: strict equality, so neither "1" nor true is 1. */
  predicate IsOne(v: Option<Json>) {
    v == Some(Num(1.0))
  }

  /** The value stored under `key` in an object, or undefined. */
  function Field(v: Json, key: string): Option<Json> {
    if v.Obj? && key in v.fields then Some(v.fields[key]) else None
  }
}
