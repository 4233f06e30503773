/**
  Decoded JSON values as Python holds them after `json.loads`, with the
  subscripting, `len` and `str()` operations the pipeline applies to them.
 */
module Json {
  import opened Wrappers
  import opened Strings
  import opened Errors

  datatype Json =
    | JNull
    | JBool(b: bool)
    | JNumber(n: int)
    | JString(s: string)
    | JArray(items: seq<Json>)
    | JObject(fields: map<string, Json>)

  /** `json.loads`: the text's value, or None where it raises `JSONDecodeError`. */
  type Decoder = string -> Option<Json>

  /** `j[key]` for a string key. */
  function Subscript(j: Json, key: string): (r: Result<Json, PyError>)
    ensures r.Success? <==> j.JObject? && key in j.fields
    ensures r.Success? ==> r.value == j.fields[key]
  {
    match j
    case JObject(m) => if key in m then Success(m[key]) else Failure(KeyError(key))
    case _ => Failure(TypeError)
  }

  /** `j[0]`: a list's first item or a string's first character. */
  function First(j: Json): (r: Result<Json, PyError>)
    ensures r.Success? <==> (j.JArray? && |j.items| > 0) || (j.JString? && |j.s| > 0)
  {
    match j
    case JArray(items) => if |items| > 0 then Success(items[0]) else Failure(IndexError)
    case JString(s) => if |s| > 0 then Success(JString(s[..1])) else Failure(IndexError)
    case JObject(_) => Failure(IntKeyError(0))
    case _ => Failure(TypeError)
  }

  /** `len(j)` is defined (it raises `TypeError` on numbers, booleans and None). */
  predicate HasLen(j: Json) {
    j.JString? || j.JArray? || j.JObject?
  }

  /** `str(j)`, as an f-string interpolates it. */
  function Display(j: Json): (r: string)
    ensures j.JString? ==> r == j.s
  {
    match j
    case JNull => "None"
    case JBool(b) => if b then "True" else "False"
    case JNumber(n) => IntToString(n)
    case JString(s) => s
    case JArray(_) => "[...]"
    case JObject(_) => "{...}"
  }
}
