/**
 * JSON values as the system handles them (serde_json's `Value`, the objects
 * Python's `json.loads` returns). Parsing and printing JSON text are outside
 * the model; they appear as function-valued parameters where the code calls them.
 */
module Json {
  import opened Wrappers

  datatype Value =
    | JNull
    | JBool(b: bool)
    | JNum(n: int)
    | JStr(s: string)
    | JArr(items: seq<Value>)
    | JObj(fields: map<string, Value>)

  /** serde_json's `Value::get(key)`: the field of an object; nothing for any other value. */
  function Get(j: Value, key: string): (r: Option<Value>)
    ensures r.Some? <==> j.JObj? && key in j.fields
    ensures r.Some? ==> r.value == j.fields[key]
  {
    if j.JObj? && key in j.fields then Some(j.fields[key]) else None
  }

  /** `j.get(key).and_then(|v| v.as_str())`. */
  function GetStr(j: Value, key: string): (r: Option<string>)
    ensures r.Some? <==> j.JObj? && key in j.fields && j.fields[key].JStr?
    ensures r.Some? ==> j.fields[key] == JStr(r.value)
  {
    match Get(j, key)
    case Some(JStr(s)) => Some(s)
    case _ => None
  }

  /** How serde_json writes an `Option<String>`. */
  function OptString(o: Option<string>): Value
  {
    match o
    case None => JNull
    case Some(s) => JStr(s)
  }

  /** How serde_json writes an `Option<i64>` / `Option<i32>`. */
  function OptNumber(o: Option<int>): Value
  {
    match o
    case None => JNull
    case Some(n) => JNum(n)
  }
}
