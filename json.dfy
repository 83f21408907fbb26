/** A parsed JSON value, as `express.json()` hands a request body to a handler
    and as `res.json` receives a response body. Numbers are integers here. */
module JsonValues {

  datatype Json =
    | JNull
    | JBool(b: bool)
    | JNum(n: int)
    | JStr(s: string)
    | JArr(items: seq<Json>)
    | JObj(fields: map<string, Json>)

  /** JavaScript truthiness of a parsed JSON value: null, false, 0 and the
      empty string are falsy, every array and object is truthy. */
  function Truthy(j: Json): (t: bool)
    ensures !t <==> j == JNull || j == JBool(false) || j == JNum(0) || j == JStr("")
  {
    match j
    case JNull => false
    case JBool(b) => b
    case JNum(n) => n != 0
    case JStr(s) => s != ""
    case JArr(_) => true
    case JObj(_) => true
  }

  /** The `{ error: message }` body every failing route sends. */
  function ErrorJson(message: string): (j: Json)
    ensures j.JObj? && j.fields.Keys == {"error"} && j.fields["error"] == JStr(message)
  {
    JObj(map["error" := JStr(message)])
  }
}
