/**
 * Decoded JSON values as the Python code sees them after `response.json()`,
 * together with the handful of Python built-ins the proxy applies to them:
 * truthiness, `type(x).__name__`, `len`, `+` and `dict.get` with a default.
 * Floating-point numbers are not modelled.
 */
module Json {
  import opened Results
  import Text

  datatype Json =
    | JNull                              // None
    | JBool(b: bool)                     // bool
    | JInt(i: int)                       // int
    | JStr(s: string)                    // str
    | JArr(elems: seq<Json>)             // list
    | JObj(fields: map<string, Json>)    // dict

  /** Python's `bool(x)`: None, False, 0 and empty containers are falsy. */
  predicate Truthy(j: Json) {
    match j
    case JNull => false
    case JBool(b) => b
    case JInt(i) => i != 0
    case JStr(s) => |s| > 0
    case JArr(a) => |a| > 0
    case JObj(m) => |m| > 0
  }

  /** `type(x).__name__`, as it appears in Python's error messages. */
  function TypeName(j: Json): string {
    match j
    case JNull => "NoneType"
    case JBool(_) => "bool"
    case JInt(_) => "int"
    case JStr(_) => "str"
    case JArr(_) => "list"
    case JObj(_) => "dict"
  }

  /** `d.get(k, default)` on a dict. */
  function GetOr(m: map<string, Json>, k: string, default: Json): (r: Json)
    ensures k in m ==> r == m[k]
    ensures k !in m ==> r == default
  {
    if k in m then m[k] else default
  }

  /** The message of the `AttributeError` raised by `x.get(...)` when `x` is not a dict. */
  function NoGetMessage(j: Json): string {
    "'" + TypeName(j) + "' object has no attribute 'get'"
  }

  /** Python's `len(x)`: defined for str, list and dict, a `TypeError` otherwise. */
  function Len(j: Json): (r: Result<nat, string>)
    ensures r.Ok? <==> (j.JStr? || j.JArr? || j.JObj?)
    ensures j.JArr? ==> r == Ok(|j.elems|)
  {
    match j
    case JStr(s) => Ok(|s|)
    case JArr(a) => Ok(|a|)
    case JObj(m) => Ok(|m|)
    case _ => Err("object of type '" + TypeName(j) + "' has no len()")
  }

  /** bool is a subclass of int in Python: True is 1, False is 0. */
  predicate IsNumber(j: Json) {
    j.JInt? || j.JBool?
  }

  function AsInt(j: Json): int
    requires IsNumber(j)
  {
    if j.JInt? then j.i else if j.b then 1 else 0
  }

  /** Python's binary `+` on decoded JSON values. */
  function Add(a: Json, b: Json): (r: Result<Json, string>)
    ensures a.JInt? && b.JInt? ==> r == Ok(JInt(a.i + b.i))
    ensures r.Ok? <==> (IsNumber(a) && IsNumber(b)) || (a.JStr? && b.JStr?) || (a.JArr? && b.JArr?)
  {
    if IsNumber(a) && IsNumber(b) then Ok(JInt(AsInt(a) + AsInt(b)))
    else if a.JStr? && b.JStr? then Ok(JStr(a.s + b.s))
    else if a.JArr? && b.JArr? then Ok(JArr(a.elems + b.elems))
    else if a.JStr? then Err("can only concatenate str (not \"" + TypeName(b) + "\") to str")
    else if a.JArr? then Err("can only concatenate list (not \"" + TypeName(b) + "\") to list")
    else Err("unsupported operand type(s) for +: '" + TypeName(a) + "' and '" + TypeName(b) + "'")
  }
}
