/** JSON values as the two clients see them after parsing, with the
    truthiness rules of Python (the batch client) and of JavaScript (the
    mini-program). `Undefined` is JavaScript's value for a missing property;
    a number carries, beside its value, the text JavaScript renders it as. */
module Json {
  import opened Outcomes

  datatype Json =
    | Undefined
    | Null
    | Bool(b: bool)
    | Num(value: real, text: string)
    | Str(s: string)
    | Arr(items: seq<Json>)
    | Obj(fields: map<string, Json>)

  /** Python's `bool(v)` for what `json.loads` produces: empty containers,
      empty strings, zero, `False` and `None` are false. */
  predicate PyTruthy(v: Json)
  {
    match v
    case Undefined => false
    case Null => false
    case Bool(b) => b
    case Num(x, _) => x != 0.0
    case Str(s) => s != ""
    case Arr(items) => items != []
    case Obj(fields) => |fields| != 0
  }

  /** JavaScript's `ToBoolean` on parsed JSON: every array and object is
      true, even an empty one (JSON has no NaN). */
  predicate JsTruthy(v: Json)
  {
    match v
    case Undefined => false
    case Null => false
    case Bool(b) => b
    case Num(x, _) => x != 0.0
    case Str(s) => s != ""
    case Arr(_) => true
    case Obj(_) => true
  }

  /** JavaScript `a || b`: `a` itself when truthy, otherwise `b`. */
  function JsOr(a: Json, b: Json): (r: Json)
    ensures JsTruthy(a) ==> r == a
    ensures !JsTruthy(a) ==> r == b
  {
    if JsTruthy(a) then a else b
  }

  /** JavaScript property read `v.key`: a TypeError on `null` and
      `undefined`, the member (or `undefined`) on an object. Only keys that
      no string, number, boolean or array carries are read by the model. */
  function JsGet(v: Json, key: string): (r: Result<Json>)
    ensures r.Raised? <==> v.Undefined? || v.Null?
    ensures v.Obj? && key in v.fields ==> r == Ok(v.fields[key])
  {
    match v
    case Undefined => Raised("TypeError")
    case Null => Raised("TypeError")
    case Obj(fields) => Ok(if key in fields then fields[key] else Undefined)
    case _ => Ok(Undefined)
  }

  /** JavaScript `ToString`, used by `+` when one side is a string. */
  function JsToString(v: Json): string
  {
    match v
    case Undefined => "undefined"
    case Null => "null"
    case Bool(b) => if b then "true" else "false"
    case Num(_, text) => text
    case Str(s) => s
    case Arr(items) => JoinElements(items)
    case Obj(_) => "[object Object]"
  }

  /** `Array.prototype.join(",")`: `null` and `undefined` elements print as
      the empty string. */
  function JoinElements(items: seq<Json>): string
    decreases items, 0
  {
    if items == [] then ""
    else
      var head := if items[0].Undefined? || items[0].Null? then "" else JsToString(items[0]);
      if |items| == 1 then head else head + "," + JoinElements(items[1..])
  }
}
