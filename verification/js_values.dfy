/** The untyped values a decoded import-map document is made of, and the handful of
    JavaScript operators the validator applies to them (`typeof`, truthiness,
    `Array.isArray`, `Object.entries`, property access, `endsWith('/')`). */
module JsValues {
  import opened Wrappers
  import opened OrderedMaps

  /** A JavaScript value as produced by decoding a JSON document. Numbers are
      modelled as integers. An object is the list of its own properties in
      enumeration order. */
  datatype JsValue =
    | Undefined
    | Null
    | Bool(b: bool)
    | Num(n: int)
    | Str(s: string)
    | Arr(items: seq<JsValue>)
    | Obj(props: Entries<JsValue>)

  /** JavaScript truthiness: `undefined`, `null`, `false`, `0` and `""` are falsy. */
  predicate Truthy(v: JsValue) {
    match v
    case Undefined => false
    case Null => false
    case Bool(b) => b
    case Num(n) => n != 0
    case Str(s) => s != ""
    case Arr(_) => true
    case Obj(_) => true
  }

  /** The `typeof` operator. Note that `typeof null` is "object". */
  function TypeOf(v: JsValue): string {
    match v
    case Undefined => "undefined"
    case Null => "object"
    case Bool(_) => "boolean"
    case Num(_) => "number"
    case Str(_) => "string"
    case Arr(_) => "object"
    case Obj(_) => "object"
  }

  /** `typeof v === 'object'`. */
  predicate IsObjectType(v: JsValue) {
    v.Null? || v.Arr? || v.Obj?
  }

  /** `typeof v === 'string'`. */
  predicate IsStringType(v: JsValue) {
    v.Str?
  }

  /** The two type tests agree with `TypeOf`. */
  lemma TypeTestsAgree(v: JsValue)
    ensures IsObjectType(v) <==> TypeOf(v) == "object"
    ensures IsStringType(v) <==> TypeOf(v) == "string"
  {
  }

  /** The top-level shape test `typeof v === 'object' && !Array.isArray(v)`.
      It lets `null` through. */
  predicate IsObjectNotArray(v: JsValue) {
    IsObjectType(v) && !v.Arr?
  }

  /** `s.endsWith('/')`. */
  predicate EndsWithSlash(s: string) {
    |s| > 0 && s[|s| - 1] == '/'
  }

  /** The decimal spelling of an array index, the key `Object.entries` reports for it. */
  function IndexKey(n: nat): (k: string)
    ensures |k| > 0
    ensures forall i :: 0 <= i < |k| ==> '0' <= k[i] <= '9'
  {
    var digit := ['0' + (n % 10) as char];
    if n < 10 then digit else IndexKey(n / 10) + digit
  }

  /** `Object.entries(v)` for an object or an array: its own enumerable
      properties as key/value pairs, array elements keyed by their index. */
  function OwnEntries(v: JsValue): (es: Entries<JsValue>)
    requires v.Arr? || v.Obj?
  {
    if v.Obj? then v.props
    else seq(|v.items|, i requires 0 <= i < |v.items| => (IndexKey(i), v.items[i]))
  }

  /** Property access `v[key]` on a value other than `null` and `undefined`: an own
      property of an object, otherwise `undefined`. */
  function Property(v: JsValue, key: string): JsValue
    requires !v.Null? && !v.Undefined?
  {
    if v.Obj? then Get(v.props, key).GetOr(Undefined) else Undefined
  }
}
