/** Python's dynamically typed values, as far as the inventory code inspects
    them: attribute maps, JSON payloads and the truthiness rules of `if x:`,
    `not x` and `a or b`. */
module Values {
  import opened Wrappers
  import Text

  datatype Value =
    | VNone
    | VBool(b: bool)
    | VInt(i: int)
    | VStr(s: string)
    | VList(items: seq<Value>)
    | VMap(entries: map<string, Value>)

  /** Python truthiness: None, False, 0, "", [] and {} are false. */
  predicate Truthy(v: Value) {
    match v
    case VNone => false
    case VBool(b) => b
    case VInt(i) => i != 0
    case VStr(s) => |s| > 0
    case VList(xs) => |xs| > 0
    case VMap(m) => |m| > 0
  }

  /** `d.get(k)`: the value under `k`, or None when the key is absent. */
  function Get(d: map<string, Value>, k: string): Value {
    if k in d then d[k] else VNone
  }

  /** An optional string as a Python value (`None` or a `str`). */
  function FromOpt(o: Option<string>): Value {
    match o
    case None => VNone
    case Some(s) => VStr(s)
  }

  /** Truthiness of an optional string. */
  predicate TruthyStr(o: Option<string>) {
    o.Some? && |o.value| > 0
  }

  /** Python's `a or b` on optional strings: `a` when it is truthy, else `b`
      (even when `b` is falsy as well). */
  function Or(a: Option<string>, b: Option<string>): Option<string> {
    if TruthyStr(a) then a else b
  }

  /** Python's `a or b` on values: `a` when it is truthy, else `b`. */
  function OrValue(a: Value, b: Value): Value {
    if Truthy(a) then a else b
  }

  /** Python's `int(v)`: integers and booleans as they are, decimal
      strings parsed, anything else a TypeError. */
  function IntOf(v: Value): (r: Result<int>)
    ensures v.VInt? ==> r == Success(v.i)
    ensures v.VStr? ==> (r.Success? <==> Text.ParseInt(v.s).Some?)
    ensures v.VStr? && r.Failure? ==> r.error == ValueError
    ensures (v.VNone? || v.VList? || v.VMap?) ==> r == Failure(TypeError)
    ensures r.Failure? ==> r.error in {ValueError, TypeError}
  {
    match v
    case VInt(i) => Success(i)
    case VBool(b) => Success(if b then 1 else 0)
    case VStr(s) => (if Text.ParseInt(s).Some? then Success(Text.ParseInt(s).value) else Failure(ValueError))
    case _ => Failure(TypeError)
  }
}
