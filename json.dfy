/** Decoded JSON values and the few Python operations on them that the
    GeoJSON engine relies on (`.get`, `[]`, `in`, `len`, iteration and
    truthiness), each with the exception Python raises when the value has
    the wrong shape. */
module Json {

  datatype Option<+T> = None | Some(value: T)

  /** The exceptions the engine can raise, by Python class. */
  datatype Error =
    | ValueError(msg: string)
    | JsonDecodeError
    | TypeError
    | KeyError
    | IndexError
    | AttributeError

  datatype Result<+T> = Ok(value: T) | Err(error: Error) {
    predicate IsFailure() { Err? }
    function PropagateFailure<U>(): Result<U> requires Err? { Err(error) }
    function Extract(): T requires Ok? { value }
  }

  /** A value produced by `json.load`/`json.loads`. */
  datatype Json =
    | JNull
    | JBool(b: bool)
    | JNum(n: real)
    | JStr(s: string)
    | JArr(items: seq<Json>)
    | JObj(fields: map<string, Json>)

  const EmptyObj: Json := JObj(map[])
  const EmptyArr: Json := JArr([])

  /** Python's `bool(v)`. */
  predicate Truthy(v: Json) {
    match v
    case JNull => false
    case JBool(b) => b
    case JNum(n) => n != 0.0
    case JStr(s) => s != ""
    case JArr(items) => items != []
    case JObj(fields) => fields != map[]
  }

  /** `o.get(key, default)`: only a dict has `.get`. */
  function Get(o: Json, key: string, default: Json): (r: Result<Json>)
    ensures r.Ok? <==> o.JObj?
    ensures o.JObj? && key in o.fields ==> r == Ok(o.fields[key])
    ensures o.JObj? && key !in o.fields ==> r == Ok(default)
  {
    match o
    case JObj(fields) => Ok(if key in fields then fields[key] else default)
    case _ => Err(AttributeError)
  }

  /** `o[key]` with a string key. */
  function Lookup(o: Json, key: string): (r: Result<Json>)
    ensures r.Ok? <==> o.JObj? && key in o.fields
    ensures r.Ok? ==> r.value == o.fields[key]
  {
    match o
    case JObj(fields) => if key in fields then Ok(fields[key]) else Err(KeyError)
    case _ => Err(TypeError)
  }

  /** `len(o)`. */
  function Length(o: Json): (r: Result<nat>)
    ensures o.JArr? ==> r == Ok(|o.items|)
    ensures o.JStr? ==> r == Ok(|o.s|)
    ensures o.JObj? ==> r == Ok(|o.fields|)
    ensures r.Ok? <==> o.JArr? || o.JStr? || o.JObj?
  {
    match o
    case JArr(items) => Ok(|items|)
    case JStr(s) => Ok(|s|)
    case JObj(fields) => Ok(|fields|)
    case _ => Err(TypeError)
  }

  /** `o[i]` with an integer index, negative indices counting from the end.
      A JSON object has only string keys, so an integer key is missing. */
  function At(o: Json, i: int): (r: Result<Json>)
    ensures o.JArr? && -|o.items| <= i < |o.items| ==>
              r == Ok(o.items[if i < 0 then i + |o.items| else i])
    ensures o.JArr? && !(-|o.items| <= i < |o.items|) ==> r == Err(IndexError)
    ensures r.Ok? ==> o.JArr? || o.JStr?
  {
    match o
    case JArr(items) =>
      if -|items| <= i < |items| then Ok(items[if i < 0 then i + |items| else i])
      else Err(IndexError)
    case JStr(s) =>
      if -|s| <= i < |s| then Ok(JStr([s[if i < 0 then i + |s| else i]]))
      else Err(IndexError)
    case JObj(_) => Err(KeyError)
    case _ => Err(TypeError)
  }

  /** Whether `needle` occurs contiguously in `hay` (Python's `in` on str). */
  predicate IsSubstring(needle: string, hay: string) {
    exists i | 0 <= i <= |hay| - |needle| :: OccursAt(needle, hay, i)
  }

  predicate OccursAt(needle: string, hay: string, i: int) {
    0 <= i <= |hay| - |needle| && hay[i..i + |needle|] == needle
  }

  /** `key in o` for a string `key`: a dict tests its keys, a list its
      elements, a str its substrings; other values cannot be searched. */
  function Contains(o: Json, key: string): (r: Result<bool>)
    ensures o.JObj? ==> r == Ok(key in o.fields)
    ensures o.JArr? ==> r == Ok(JStr(key) in o.items)
    ensures r.Ok? <==> o.JObj? || o.JArr? || o.JStr?
  {
    match o
    case JObj(fields) => Ok(key in fields)
    case JArr(items) => Ok(JStr(key) in items)
    case JStr(s) => Ok(IsSubstring(key, s))
    case _ => Err(TypeError)
  }

  /** The elements a `for` loop over `o` visits. A str yields its characters
      one by one. A dict would yield its keys in insertion order, which a map
      does not keep: a non-empty dict is therefore an error here. */
  function Iter(o: Json): (r: Result<seq<Json>>)
    ensures o.JArr? ==> r == Ok(o.items)
    ensures o == EmptyObj ==> r == Ok([])
    ensures o.JStr? ==> r.Ok? && |r.value| == |o.s| && forall i :: 0 <= i < |o.s| ==> r.value[i] == JStr([o.s[i]])
    ensures r.Ok? ==> o.JArr? || o.JStr? || o.JObj?
  {
    match o
    case JArr(items) => Ok(items)
    case JStr(s) => Ok(seq(|s|, i requires 0 <= i < |s| => JStr([s[i]])))
    case JObj(fields) => if fields == map[] then Ok([]) else Err(TypeError)
    case _ => Err(TypeError)
  }

  /** The value of a JSON number, with Python's `bool` counting as 0 or 1. */
  function AsNumber(v: Json): (r: Option<real>)
    ensures r.Some? <==> v.JNum? || v.JBool?
  {
    match v
    case JNum(n) => Some(n)
    case JBool(b) => Some(if b then 1.0 else 0.0)
    case _ => None
  }

  /** `s.startswith(prefix)`. */
  predicate StartsWith(s: string, prefix: string) {
    |prefix| <= |s| && s[..|prefix|] == prefix
  }

  function Min(a: int, b: int): int { if a <= b then a else b }
}
