/** Parsed JSON as the Python code sees it (`dict`, `list`, `str`, numbers,
    booleans, `None`), with the Python operations the add-ons apply to it:
    truth testing, `d.get(key, default)`, `==` against a number, iteration,
    and `x[0]`. An operation Python would refuse (calling `.get` on a list,
    iterating a number) yields `Err`. */
module Json {
  import opened Wrappers

  datatype Json =
    | JNull
    | JBool(b: bool)
    | JNum(n: real)
    | JStr(s: string)
    | JArr(items: seq<Json>)
    | JObj(fields: map<string, Json>)

  /** Python truth testing: `None`, `False`, zero and empty containers are
      false, everything else is true. */
  predicate Truthy(j: Json) {
    match j
    case JNull => false
    case JBool(b) => b
    case JNum(n) => n != 0.0
    case JStr(s) => |s| > 0
    case JArr(xs) => |xs| > 0
    case JObj(m) => |m| > 0
  }

  /** `j.get(key, default)`: only a dict has `.get`. */
  function Get(j: Json, key: string, default: Json): (r: Result<Json>)
    ensures r.Ok? <==> j.JObj?
    ensures j.JObj? && key in j.fields ==> r == Ok(j.fields[key])
    ensures j.JObj? && key !in j.fields ==> r == Ok(default)
  {
    match j
    case JObj(m) => Ok(if key in m then m[key] else default)
    case _ => Err(AttributeError)
  }

  /** Python's `j == x` for a number `x`: equal numbers compare equal, and
      `True`/`False` compare as 1 and 0; no other value equals a number. */
  predicate EqualsNumber(j: Json, x: real) {
    match j
    case JNum(n) => n == x
    case JBool(b) => (if b then 1.0 else 0.0) == x
    case _ => false
  }

  /** The elements a `for` loop visits when each element is then used as a
      dict. A list yields its items; an empty dict or string yields nothing;
      a non-empty dict or string yields `str` elements, whose `.get` raises;
      any other value is not iterable. */
  function Items(j: Json): (r: Result<seq<Json>>)
    ensures j.JArr? ==> r == Ok(j.items)
    ensures r.Ok? && !j.JArr? ==> r.value == []
    ensures !Truthy(j) && r.Ok? ==> r.value == []
  {
    match j
    case JArr(xs) => Ok(xs)
    case JObj(m) => if |m| == 0 then Ok([]) else Err(AttributeError)
    case JStr(s) => if |s| == 0 then Ok([]) else Err(AttributeError)
    case _ => Err(TypeError)
  }

  /** `j[0]` where `j` is already known to be truthy: the first item of a
      list or the first character of a string; a dict has no key `0`. */
  function First(j: Json): (r: Result<Json>)
    ensures j.JArr? && |j.items| > 0 ==> r == Ok(j.items[0])
    ensures j.JStr? && |j.s| > 0 ==> r == Ok(JStr(j.s[..1]))
    ensures r.Ok? ==> (j.JArr? || j.JStr?)
  {
    match j
    case JArr(xs) => if |xs| > 0 then Ok(xs[0]) else Err(IndexError)
    case JStr(s) => if |s| > 0 then Ok(JStr(s[..1])) else Err(IndexError)
    case JObj(_) => Err(KeyError)
    case _ => Err(TypeError)
  }
}
