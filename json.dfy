/**
 * Decoded JSON as the Python side sees it after `json.loads`: None, bool, int,
 * float, str, list and dict. The dict operations and Python truth values the
 * pipeline relies on are written out here, together with the text of the
 * AttributeError Python raises when a non-dict is asked for `.get`.
 */
module Json {
  import opened Wrappers
  import PyText

  datatype Value =
    | Null
    | Bool(b: bool)
    | Int(i: int)
    | Float(r: real)
    | Str(s: string)
    | Arr(items: seq<Value>)
    | Obj(fields: map<string, Value>)

  /** `d.get(key, default)` on a dict. */
  function GetOr(fields: map<string, Value>, key: string, default: Value): Value {
    if key in fields then fields[key] else default
  }

  /** Python's `bool(v)`: None, False, 0, 0.0 and empty containers are falsy. */
  predicate Truthy(v: Value) {
    match v
    case Null => false
    case Bool(b) => b
    case Int(i) => i != 0
    case Float(r) => r != 0.0
    case Str(s) => s != []
    case Arr(items) => items != []
    case Obj(fields) => fields != map[]
  }

  /** The number Python arithmetic and comparisons see in `v` (bool counts as 0 or 1). */
  function Number(v: Value): Option<real> {
    match v
    case Bool(b) => Some(if b then 1.0 else 0.0)
    case Int(i) => Some(i as real)
    case Float(r) => Some(r)
    case _ => None
  }

  /** Values Python can use as dict keys. */
  predicate Hashable(v: Value) {
    !v.Arr? && !v.Obj?
  }

  /** The Python type name, as it appears in error messages. */
  function TypeName(v: Value): string {
    match v
    case Null => "NoneType"
    case Bool(_) => "bool"
    case Int(_) => "int"
    case Float(_) => "float"
    case Str(_) => "str"
    case Arr(_) => "list"
    case Obj(_) => "dict"
  }

  /** `str(e)` for the AttributeError raised by `v.<attr>` on a value without that method. */
  function AttributeErrorText(v: Value, attr: string): string {
    "'" + TypeName(v) + "' object has no attribute '" + attr + "'"
  }

  /** `str(e)` for the KeyError raised by `d[key]` on a dict without `key`. */
  function KeyErrorText(key: string): string {
    "'" + key + "'"
  }

  /** `str(v)` inside an f-string; floats, lists and dicts get a placeholder rendering. */
  function Show(v: Value): string {
    match v
    case Null => "None"
    case Bool(b) => if b then "True" else "False"
    case Int(i) => PyText.IntToString(i)
    case Float(_) => "<float>"
    case Str(s) => s
    case Arr(_) => "[...]"
    case Obj(_) => "{...}"
  }
}
