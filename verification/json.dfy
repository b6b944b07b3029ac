/** The decoded JSON value the homework API answers with, as Python's `json`
    module hands it over: objects become dicts, arrays become lists, `null`
    becomes `None`. */
module JsonValue {

  /** Numbers are integers; JSON numbers with a fraction or exponent (Python
      floats) are not modelled. */
  datatype Json =
    | JNull
    | JBool(b: bool)
    | JNum(n: int)
    | JStr(s: string)
    | JArr(items: seq<Json>)
    | JObj(fields: map<string, Json>)

  /** `d.get(key)` on a dict: the value under `key`, or `None` when absent. */
  function Get(fields: map<string, Json>, key: string): Json
  {
    if key in fields then fields[key] else JNull
  }

  /** Python's name for the type of the decoded value, as `type(x).__name__`. */
  function TypeName(j: Json): string
  {
    match j
    case JNull => "NoneType"
    case JBool(_) => "bool"
    case JNum(_) => "int"
    case JStr(_) => "str"
    case JArr(_) => "list"
    case JObj(_) => "dict"
  }

  /** Values Python can use as a dict key; lists and dicts are unhashable. */
  predicate Hashable(j: Json)
  {
    !j.JArr? && !j.JObj?
  }
}
