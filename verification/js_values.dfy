/**
  JavaScript values as the services see them: request bodies, store results and
  token claims. The envelope helpers decide on JavaScript truthiness and on
  property reads, so both are spelled out here rather than approximated.
*/
module JsValues {

  /**
    A JSON-like JavaScript value. Numbers are modelled as integers: no NaN,
    no fractions and no infinities arise from the stores and bodies modelled.
  */
  datatype JsValue =
    | Undefined
    | Null
    | Bool(b: bool)
    | Num(n: int)
    | Str(s: string)
    | Arr(items: seq<JsValue>)
    | Obj(fields: map<string, JsValue>)

  /** JavaScript truthiness: `undefined`, `null`, `false`, `0` and `""` are falsy. */
  predicate Truthy(v: JsValue) {
    match v
    case Undefined => false
    case Null => false
    case Bool(b) => b
    case Num(n) => n != 0
    case Str(s) => s != ""
    case Arr(_) => true
    case Obj(_) => true
  }

  /** `v == null` in the loose sense: the two values whose property reads throw. */
  predicate Nullish(v: JsValue) {
    v.Undefined? || v.Null?
  }

  /**
    The named property `v.key`. Arrays and strings answer `length`; an object
    answers its own fields; every other read yields `undefined`. Reading a
    property of a nullish value throws in JavaScript: callers guard with
    `Truthy` or `Nullish` first, as the source does.
  */
  function Get(v: JsValue, key: string): (r: JsValue)
    ensures v.Obj? && key in v.fields ==> r == v.fields[key]
    ensures Nullish(v) ==> r == Undefined
  {
    match v
    case Obj(fields) => if key in fields then fields[key] else Undefined
    case Arr(items) => if key == "length" then Num(|items|) else Undefined
    case Str(s) => if key == "length" then Num(|s|) else Undefined
    case _ => Undefined
  }

  /** The message of the TypeError thrown when a property of `undefined` or `null` is read. */
  function ReadFailure(v: JsValue, key: string): string {
    "Cannot read properties of " + (if v.Null? then "null" else "undefined") + " (reading '" + key + "')"
  }

  /** The field `key` of a request body, `undefined` when the body lacks it. */
  function Field(body: map<string, JsValue>, key: string): JsValue {
    if key in body then body[key] else Undefined
  }

  /** The object `v` restricted to the listed keys: a store projection. */
  function Project(v: JsValue, keys: set<string>): (r: JsValue)
    ensures v.Obj? ==> r.Obj? && r.fields.Keys == v.fields.Keys * keys
    ensures v.Obj? ==> forall k :: k in r.fields ==> r.fields[k] == v.fields[k]
  {
    match v
    case Obj(fields) => Obj(map k | k in fields && k in keys :: fields[k])
    case _ => v
  }

  predicate IsDigit(c: char) {
    '0' <= c <= '9'
  }

  /** A string made only of decimal digits (possibly empty). */
  predicate DigitString(s: string) {
    forall i :: 0 <= i < |s| ==> IsDigit(s[i])
  }

  /**
    The comparison `v >= 0` under JavaScript's loose relational rules: the value
    is converted to a number and NaN compares false. `null` and booleans become
    0 or 1, a string of digits becomes a non-negative number, `undefined` and
    plain objects become NaN, and an array is joined into a string first.
  */
  predicate AtLeastZero(v: JsValue) {
    match v
    case Undefined => false
    case Null => true
    case Bool(_) => true
    case Num(n) => n >= 0
    case Str(s) => DigitString(s)
    case Arr(items) => |items| == 0 || (|items| == 1 && JoinedAtLeastZero(items[0]))
    case Obj(_) => false
  }

  /**
    `String(v) >= 0` for `v` an element of a one-element array that is being
    joined: `null` and `undefined` join as the empty string, booleans as the
    non-numeric words `true` and `false`.
  */
  predicate JoinedAtLeastZero(v: JsValue) {
    match v
    case Undefined => true
    case Null => true
    case Bool(_) => false
    case Num(n) => n >= 0
    case Str(s) => DigitString(s)
    case Arr(items) => |items| == 0 || (|items| == 1 && JoinedAtLeastZero(items[0]))
    case Obj(_) => false
  }
}
