/** Parsed JSON values as the browser sees them after `response.json()`,
    with the JavaScript operations the client applies to them: truthiness,
    property reads and `String(v)`. Numbers are integers. */
module Json {
  import opened Base
  import opened JsString

  datatype Json =
    | JNull
    | JBool(b: bool)
    | JNum(n: int)
    | JStr(s: string)
    | JArr(items: seq<Json>)
    | JObj(fields: map<string, Json>)

  /** JavaScript truthiness: `null`, `false`, `0` and `""` are falsy. */
  predicate Truthy(v: Json)
  {
    match v
    case JNull => false
    case JBool(b) => b
    case JNum(n) => n != 0
    case JStr(s) => s != []
    case _ => true
  }

  /** `v[key]` for a key that names no built-in property (`data`,
      `message`, `error`): `None` is `undefined`; reading a property of
      `null` throws V8's TypeError. */
  function Member(v: Json, key: string): Result<Option<Json>, Thrown>
  {
    match v
    case JNull => Err(ErrorValue("Cannot read properties of null (reading '" + key + "')"))
    case JObj(m) => Ok(if key in m then Some(m[key]) else None)
    case _ => Ok(None)
  }

  /** `String(v)`, which `new Error(v)` uses for its message. */
  function ToJsString(v: Json): string
  {
    match v
    case JNull => "null"
    case JBool(b) => if b then "true" else "false"
    case JNum(n) => IntToDecimal(n)
    case JStr(s) => s
    case JArr(xs) => JoinElements(xs)
    case JObj(_) => "[object Object]"
  }

  /** `xs.join(",")`, where `null` elements print as empty. */
  function JoinElements(xs: seq<Json>): string
  {
    if xs == [] then []
    else
      var head := if xs[0] == JNull then [] else ToJsString(xs[0]);
      if |xs| == 1 then head else head + "," + JoinElements(xs[1..])
  }

  /** `{ok: true}`. */
  const OkAck: Json := JObj(map["ok" := JBool(true)])

  /** `{error: message}`. */
  function ErrorJson(message: string): Json
  {
    JObj(map["error" := JStr(message)])
  }
}
