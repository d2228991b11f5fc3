/** Option dictionaries as passed to Playwright calls (`**kwargs`), modelled as
    string-keyed maps of dynamically typed values. */
module Values {
  import opened Wrappers
  import Files

  datatype Value =
    | VNone
    | VBool(b: bool)
    | VInt(i: int)
    | VStr(s: string)
    | VPath(p: Files.Path)
    | VDict(entries: map<string, Value>)

  type Options = map<string, Value>

  /** Python truthiness: `None`, `False`, `0`, `""` and `{}` are false. */
  predicate Truthy(v: Value) {
    match v
    case VNone => false
    case VBool(b) => b
    case VInt(i) => i != 0
    case VStr(s) => s != ""
    case VPath(_) => true
    case VDict(m) => m != map[]
  }

  /** `d.get(key, default)`. */
  function GetOr(m: Options, key: string, default: Value): (v: Value)
    ensures key in m ==> v == m[key]
    ensures key !in m ==> v == default
  {
    if key in m then m[key] else default
  }

  /** `{**base, **top}`: every key of either map, the entries of `top` winning. */
  function Overlay(base: Options, top: Options): (r: Options)
    ensures r.Keys == base.Keys + top.Keys
    ensures forall k :: k in top ==> r[k] == top[k]
    ensures forall k :: k in base && k !in top ==> r[k] == base[k]
  {
    base + top
  }

  /** An optional integer as the Python value it stands for (`None` or an int). */
  function FromOptInt(o: Option<int>): (v: Value)
    ensures o.None? <==> v == VNone
    ensures o.Some? ==> v == VInt(o.value)
  {
    match o
    case None => VNone
    case Some(i) => VInt(i)
  }
}
