/** The JavaScript values a parsed configuration or package manifest can hold, with the
    truthiness, `typeof` and property-read rules the modelled code relies on. */
module JsValues {
  import opened Wrappers

  datatype JsValue =
    | Undefined
    | Null
    | Bool(b: bool)
    | Num(n: real)
    | Str(s: string)
    | Arr(items: seq<JsValue>)
    | Obj(fields: map<string, JsValue>)

  /** JavaScript truthiness: `undefined`, `null`, `false`, `0` and `""` are falsy. */
  predicate Truthy(v: JsValue) {
    match v
    case Undefined => false
    case Null => false
    case Bool(b) => b
    case Num(n) => n != 0.0
    case Str(s) => s != ""
    case Arr(_) => true
    case Obj(_) => true
  }

  /** `typeof v` */
  function TypeOf(v: JsValue): string {
    match v
    case Undefined => "undefined"
    case Null => "object"
    case Bool(_) => "boolean"
    case Num(_) => "number"
    case Str(_) => "string"
    case Arr(_) => "object"
    case Obj(_) => "object"
  }

  /** The value of a string of decimal digits. */
  function DigitsValue(k: string): nat
    requires forall i :: 0 <= i < |k| ==> '0' <= k[i] <= '9'
  {
    if |k| == 0 then 0
    else 10 * DigitsValue(k[..|k| - 1]) + (k[|k| - 1] as int - '0' as int)
  }

  /** The array index a property name denotes, if it is the canonical decimal form of one. */
  function ArrayIndex(k: string): (r: Option<nat>)
    ensures r.Some? ==> |k| > 0 && (k == "0" || k[0] != '0')
  {
    if |k| > 0 && (forall i :: 0 <= i < |k| ==> '0' <= k[i] <= '9') && (k == "0" || k[0] != '0')
    then Some(DigitsValue(k))
    else None
  }

  /** `k in v` for the values `in` is applied to in the modelled code (objects and arrays),
      restricted to own properties. */
  predicate HasOwn(v: JsValue, k: string) {
    match v
    case Obj(m) => k in m
    case Arr(items) => k == "length" || (ArrayIndex(k).Some? && ArrayIndex(k).value < |items|)
    case _ => false
  }

  /** `v[k]` for an own property of an object or array; `undefined` otherwise. */
  function Prop(v: JsValue, k: string): (r: JsValue)
    ensures !HasOwn(v, k) ==> r == Undefined
  {
    match v
    case Obj(m) => if k in m then m[k] else Undefined
    case Arr(items) =>
      if k == "length" then Num(|items| as real)
      else if ArrayIndex(k).Some? && ArrayIndex(k).value < |items| then items[ArrayIndex(k).value]
      else Undefined
    case _ => Undefined
  }

  /** `typeof v === 'string' && v` as the validators test it: a non-empty string. */
  predicate IsNonEmptyString(v: JsValue) {
    v.Str? && v.s != ""
  }

  lemma NonEmptyStringIsTruthyString(v: JsValue)
    ensures IsNonEmptyString(v) <==> (Truthy(v) && TypeOf(v) == "string")
  {
  }
}
