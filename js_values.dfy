/** The JavaScript values that the TypeScript harness and its tool can throw,
    catch, decorate and print. */
module JsValues {
  import opened Wrappers

  /** A JavaScript value. Numbers are integers: floating point, NaN and -0
      are not part of this model. */
  datatype JsValue =
    | JsUndefined
    | JsNull
    | JsBool(b: bool)
    | JsNumber(n: int)
    | JsString(s: string)
    | JsObject(obj: JsObj)

  /** An object as the harness sees it: `text` is what `String(o)` produces
      (for an Error "Name: message", for a plain object "[object Object]");
      `dom` and `a11y` are its own `dom_snapshot` and
      `accessibility_snapshot` properties, None while absent. */
  datatype JsObj = JsObj(text: string, dom: Option<JsValue>, a11y: Option<JsValue>)

  /** JavaScript truthiness. */
  predicate Truthy(v: JsValue) {
    match v
    case JsUndefined => false
    case JsNull => false
    case JsBool(b) => b
    case JsNumber(n) => n != 0
    case JsString(s) => s != ""
    case JsObject(_) => true
  }

  /** `null` and `undefined`: the values whose property reads throw. */
  predicate Nullish(v: JsValue) {
    v.JsUndefined? || v.JsNull?
  }

  /** The decimal digits of a natural number. */
  function Digits(n: nat): (r: string)
    ensures |r| > 0
    ensures forall i :: 0 <= i < |r| ==> '0' <= r[i] <= '9'
  {
    if n < 10 then [(48 + n) as char] else Digits(n / 10) + [(48 + n % 10) as char]
  }

  /** `String(v)`, which is also what a template literal `${v}` inserts. */
  function ToString(v: JsValue): string {
    match v
    case JsUndefined => "undefined"
    case JsNull => "null"
    case JsBool(b) => if b then "true" else "false"
    case JsNumber(n) => if n < 0 then "-" + Digits(-n) else Digits(n)
    case JsString(s) => s
    case JsObject(o) => o.text
  }

  /** Reading `v.dom_snapshot` on a value that is not nullish: a missing
      property, and every property of a primitive, reads as undefined. */
  function DomProperty(v: JsValue): JsValue
    requires !Nullish(v)
  {
    if v.JsObject? then v.obj.dom.GetOr(JsUndefined) else JsUndefined
  }

  /** Reading `v.accessibility_snapshot` on a value that is not nullish. */
  function A11yProperty(v: JsValue): JsValue
    requires !Nullish(v)
  {
    if v.JsObject? then v.obj.a11y.GetOr(JsUndefined) else JsUndefined
  }
}
