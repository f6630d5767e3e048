/**
 * JavaScript values as the persisted stores see them, and JSON text as an
 * abstract codec. The codec is a parameter rather than a concrete serializer:
 * every property of the stores holds for any codec that is lawful.
 */
module Json {
  import opened Wrappers

  /** A JavaScript value; numbers are restricted to integers. */
  datatype Value =
    | Undefined
    | Null
    | Bool(b: bool)
    | Num(n: int)
    | Str(s: string)
    | Arr(items: seq<Value>)
    | Obj(fields: map<string, Value>)

  /** Values that survive `JSON.stringify` then `JSON.parse` unchanged: no `undefined` anywhere inside. */
  predicate Serializable(v: Value) {
    match v
    case Undefined => false
    case Arr(items) => forall i :: 0 <= i < |items| ==> Serializable(items[i])
    case Obj(fields) => forall k :: k in fields ==> Serializable(fields[k])
    case _ => true
  }

  /** `JSON.stringify` (coerced to a string, as `setItem` does) and `JSON.parse` (None when it throws). */
  datatype Codec = Codec(stringify: Value -> string, parse: string -> Option<Value>)

  /**
   * What is assumed of the codec: serializable values round-trip and never
   * encode to the empty string, and a top-level `undefined` is written as the
   * text "undefined", which does not parse.
   */
  ghost predicate Lawful(c: Codec) {
    && (forall v :: Serializable(v) ==> c.parse(c.stringify(v)) == Some(v))
    && (forall v :: Serializable(v) ==> c.stringify(v) != "")
    && c.stringify(Undefined) == "undefined"
    && c.parse("undefined") == None
  }

  /** Property read `v[name]` on a value that is neither null nor undefined. */
  function Field(v: Value, name: string): (r: Value)
    ensures r != Undefined ==> v.Obj? && name in v.fields && v.fields[name] == r
  {
    if v.Obj? && name in v.fields then v.fields[name] else Undefined
  }

  /**
   * The relational comparison `now > x` of a number with a value, after
   * JavaScript's coercion to number: null is 0, booleans are 0 or 1, and
   * undefined is NaN, against which every comparison is false.
   */
  function GreaterThan(now: int, x: Value): (r: bool)
    ensures x.Num? ==> (r <==> now > x.n)
    ensures x.Undefined? ==> !r
  {
    match x
    case Num(n) => now > n
    case Null => now > 0
    case Bool(b) => now > (if b then 1 else 0)
    case _ => false
  }
}
