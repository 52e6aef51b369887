/**
 * JavaScript values as the front end passes them around (store payloads, parsed
 * response bodies, form data), with the language's truthiness, `||`, property reads,
 * `String(v)` and thrown errors.
 */
module JsValue {
  import opened Wrappers
  import opened Text

  datatype Value =
    | Undefined
    | Null
    | Bool(b: bool)
    | Num(n: int)
    | Str(s: string)
    | Arr(items: seq<Value>)
    | Obj(props: map<string, Value>)

  /** A plain object: its own enumerable properties. */
  type Record = map<string, Value>

  /** An exception a JavaScript operation throws. */
  datatype Exception = Error(message: string) | TypeError(message: string)

  /** `!!v`. */
  predicate Truthy(v: Value) {
    match v
    case Undefined => false
    case Null => false
    case Bool(b) => b
    case Num(n) => n != 0
    case Str(s) => s != ""
    case Arr(_) => true
    case Obj(_) => true
  }

  /** `a || b`. */
  function Or(a: Value, b: Value): Value {
    if Truthy(a) then a else b
  }

  /** `v === null || v === undefined`: reading a property of such a value throws. */
  predicate IsNullish(v: Value) {
    v.Undefined? || v.Null?
  }

  /** `typeof v === "object"` (true of null and of arrays as well). */
  predicate IsObjectType(v: Value) {
    v.Null? || v.Arr? || v.Obj?
  }

  /** An own property of a plain object; a missing one reads as undefined. */
  function Field(r: Record, k: string): Value {
    if k in r then r[k] else Undefined
  }

  predicate IsDigit(c: char) {
    '0' <= c <= '9'
  }

  function DigitsValue(k: string): nat
    requires forall i :: 0 <= i < |k| ==> IsDigit(k[i])
  {
    if k == "" then 0
    else
      assert IsDigit(k[|k| - 1]);
      10 * DigitsValue(k[..|k| - 1]) + (k[|k| - 1] as int - 48)
  }

  /** The array index a property name denotes: a decimal numeral without leading zeros. */
  function ArrayIndex(k: string): Option<nat> {
    if k == "" || (|k| > 1 && k[0] == '0') || !(forall i :: 0 <= i < |k| ==> IsDigit(k[i])) then None
    else Some(DigitsValue(k))
  }

  /** `v[k]` for a value that is not null or undefined, and `v?.[k]` for any value.
      Properties inherited from prototypes are not modelled, except `length`. */
  function Get(v: Value, k: string): Value {
    match v
    case Obj(m) => Field(m, k)
    case Arr(xs) =>
      if k == "length" then Num(|xs|)
      else (match ArrayIndex(k)
            case Some(i) => if i < |xs| then xs[i] else Undefined
            case None => Undefined)
    case Str(s) => if k == "length" then Num(Utf16Length(s)) else Undefined
    case _ => Undefined
  }

  /** The own enumerable properties a spread `{...v}` copies: an object's own properties,
      the elements of an array or the characters of a string under their index names,
      and nothing from any other value. */
  function SpreadOf(v: Value): Record {
    match v
    case Obj(m) => m
    case Arr(xs) => IndexedProps(xs)
    case Str(s) => IndexedProps(seq(|s|, i requires 0 <= i < |s| => Str([s[i]])))
    case _ => map[]
  }

  /** The elements of a list as properties named "0", "1", ... */
  function IndexedProps(xs: seq<Value>): Record
    decreases |xs|
  {
    if xs == [] then map[] else IndexedProps(xs[..|xs| - 1])[IntToString(|xs| - 1) := xs[|xs| - 1]]
  }

  /** The TypeError message a V8 engine gives for reading property `k` of null or undefined. */
  function NullishReadMessage(v: Value, k: string): string
    requires IsNullish(v)
  {
    "Cannot read properties of " + (if v.Null? then "null" else "undefined") + " (reading '" + k + "')"
  }

  /** `String(v)`. */
  function ToString(v: Value): string {
    match v
    case Undefined => "undefined"
    case Null => "null"
    case Bool(b) => if b then "true" else "false"
    case Num(n) => IntToString(n)
    case Str(s) => s
    case Arr(xs) => JoinElements(xs)
    case Obj(_) => "[object Object]"
  }

  /** `Array.prototype.join(",")`, where null and undefined elements print as nothing. */
  function JoinElements(xs: seq<Value>): string {
    if xs == [] then ""
    else
      var first := if IsNullish(xs[0]) then "" else ToString(xs[0]);
      if |xs| == 1 then first else first + "," + JoinElements(xs[1..])
  }
}
