/**
 * JSON documents as exchanged between the browser client and the Django
 * backend (numbers restricted to integers), with field lookup and the two
 * truthiness rules the code relies on.
 */
module Json {
  import opened Wrappers
  import opened Strings

  datatype Json =
    | JNull
    | JBool(b: bool)
    | JNum(n: int)
    | JStr(s: string)
    | JArr(items: seq<Json>)
    | JObj(fields: map<string, Json>)

  /** `obj.get(key)` / `obj[key]`: the field when `j` is an object holding it. */
  function Get(j: Json, key: string): (r: Option<Json>)
    ensures r.Some? <==> (j.JObj? && key in j.fields)
    ensures r.Some? ==> r.value == j.fields[key]
  {
    if j.JObj? && key in j.fields then Some(j.fields[key]) else None
  }

  /** Python truthiness (`if not code`): null, false, 0, "", [] and {} are falsy. */
  predicate PyTruthy(j: Json) {
    match j
    case JNull => false
    case JBool(b) => b
    case JNum(n) => n != 0
    case JStr(s) => s != ""
    case JArr(items) => items != []
    case JObj(fields) => fields != map[]
  }

  function DigitChar(d: nat): char
    requires d < 10
  {
    "0123456789"[d]
  }

  /** Decimal spelling of a natural number, most significant digit first. */
  function NatText(n: nat): (r: string)
    ensures |r| >= 1
    ensures forall i :: 0 <= i < |r| ==> '0' <= r[i] <= '9'
  {
    if n < 10 then [DigitChar(n)] else NatText(n / 10) + [DigitChar(n % 10)]
  }

  /**
   * JavaScript's string conversion of a value inside a template literal
   * (`${v}`): strings as they are, arrays joined by commas with null elements
   * empty, objects as "[object Object]"; `None` stands for `undefined`.
   */
  function TemplateText(v: Option<Json>): string
  {
    match v
    case None => "undefined"
    case Some(j) => ValueText(j)
  }

  function ValueText(j: Json): string
    decreases j, 1
  {
    match j
    case JNull => "null"
    case JBool(b) => if b then "true" else "false"
    case JNum(n) => if n < 0 then "-" + NatText(-n) else NatText(n)
    case JStr(s) => s
    case JArr(items) => Join(ElementTexts(items), ",")
    case JObj(_) => "[object Object]"
  }

  function ElementTexts(items: seq<Json>): (r: seq<string>)
    ensures |r| == |items|
    decreases items, 0
  {
    if items == [] then []
    else [if items[0].JNull? then "" else ValueText(items[0])] + ElementTexts(items[1..])
  }
}
