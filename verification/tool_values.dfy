/** The dynamically typed values the agent's tools receive: the scalar
    types a tool input can carry, dictionaries of them, and Python's notion
    of truthiness. */
module ToolValues {

  /** A Python value as a tool sees it. VOther stands for any other object
      (a list, a tuple, ...), known only by its type and truthiness. */
  datatype Value =
    | VBool(b: bool)
    | VInt(i: int)
    | VFloat(f: real)
    | VStr(s: string)
    | VNone
    | VDict(entries: map<string, Value>)
    | VOther(typeName: string, truthy: bool)

  type Dict = map<string, Value>

  /** bool(v) */
  predicate Truthy(v: Value) {
    match v
    case VBool(b) => b
    case VInt(i) => i != 0
    case VFloat(f) => f != 0.0
    case VStr(s) => s != ""
    case VNone => false
    case VDict(m) => |m| != 0
    case VOther(_, t) => t
  }

  /** d.get(key, default) */
  function Get(d: Dict, key: string, default: Value): (v: Value)
    ensures key in d ==> v == d[key]
    ensures key !in d ==> v == default
  {
    if key in d then d[key] else default
  }

  /** str(type(v)) */
  function TypeName(v: Value): string {
    match v
    case VBool(_) => "<class 'bool'>"
    case VInt(_) => "<class 'int'>"
    case VFloat(_) => "<class 'float'>"
    case VStr(_) => "<class 'str'>"
    case VNone => "<class 'NoneType'>"
    case VDict(_) => "<class 'dict'>"
    case VOther(t, _) => t
  }
}
