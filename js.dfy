/**
 * The untyped JavaScript values the admin panel's forms work on: plain
 * objects, arrays and primitives, with truthiness, property reads, `||`,
 * `typeof … === "object"` and object spread.
 */
module Js {
  import Text

  datatype Value =
    | Undefined
    | Null
    | Bool(b: bool)
    | Num(n: real)
    | Str(s: string)
    | Arr(items: seq<Value>)
    | Obj(fields: map<string, Value>)

  /** JavaScript truthiness (NaN, which is falsy, is not among the modelled numbers). */
  predicate Truthy(v: Value) {
    match v
    case Undefined => false
    case Null => false
    case Bool(b) => b
    case Num(n) => n != 0.0
    case Str(s) => s != ""
    case Arr(_) => true
    case Obj(_) => true
  }

  /** `v.key` on a value that is not null or undefined: an own field of an object, else undefined. */
  function Get(v: Value, key: string): (r: Value)
    ensures v.Obj? && key in v.fields ==> r == v.fields[key]
    ensures !(v.Obj? && key in v.fields) ==> r == Undefined
  {
    if v.Obj? && key in v.fields then v.fields[key] else Undefined
  }

  /** `a || b`. */
  function Or(a: Value, b: Value): (r: Value)
    ensures Truthy(a) ==> r == a
    ensures !Truthy(a) ==> r == b
  {
    if Truthy(a) then a else b
  }

  /** `typeof v === "object"`: null, arrays and plain objects. */
  predicate IsObjectType(v: Value) {
    v.Null? || v.Arr? || v.Obj?
  }

  /** `{ ...a, ...b }` on two plain objects: every key of either, `b`'s value winning. */
  function Spread(a: map<string, Value>, b: map<string, Value>): (r: map<string, Value>)
    ensures r.Keys == a.Keys + b.Keys
    ensures forall k :: k in b ==> r[k] == b[k]
    ensures forall k :: k in a && k !in b ==> r[k] == a[k]
  {
    a + b
  }

  /** The own fields `{ ...v }` copies from a value that is a plain object, and none otherwise. */
  function FieldsOf(v: Value): map<string, Value> {
    if v.Obj? then v.fields else map[]
  }

  /** The items `.map`/`.filter` visit for a value that is an array; no other value is modelled as a list. */
  function ItemsOf(v: Value): seq<Value> {
    if v.Arr? then v.items else []
  }

  /** `!v || v.trim() === ""` for a value that is a string or falsy. */
  predicate BlankText(v: Value) {
    !Truthy(v) || (v.Str? && Text.IsJsBlank(v.s))
  }

  /** The string `v || ""` yields, for a value that is a string or falsy. */
  function TextOr(v: Value): string {
    if v.Str? then v.s else ""
  }
}
