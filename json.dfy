/** JSON values as registry records, search envelopes and search parameters carry them,
    with the two lookups the client relies on: reading a missing key as null, and
    Python truthiness. */
module Json {

  datatype Option<+T> = None | Some(value: T)

  datatype Result<+T, +E> = Success(value: T) | Failure(error: E)

  /** A decoded JSON value. Numbers are integers in this model. */
  datatype Value =
    | Null
    | Bool(b: bool)
    | Num(n: int)
    | Str(s: string)
    | Arr(items: seq<Value>)
    | Obj(fields: map<string, Value>)

  /** `d.get(key)` and attribute access on a JSON document: a missing key reads as null. */
  function Get(m: map<string, Value>, key: string): Value
  {
    if key in m then m[key] else Null
  }

  /** Python truthiness of a JSON value: null, false, 0, "", [] and {} are falsy. */
  predicate Truthy(v: Value)
  {
    match v
    case Null => false
    case Bool(b) => b
    case Num(n) => n != 0
    case Str(s) => s != ""
    case Arr(items) => items != []
    case Obj(fields) => fields != map[]
  }

  /** A string or null: the shape of every optional text field of a record. */
  predicate TextOrNull(v: Value)
  {
    v.Null? || v.Str?
  }

  /** The text of a string value, and "" for anything else. */
  function Text(v: Value): string
  {
    if v.Str? then v.s else ""
  }

  /** Every element of `xs` is a JSON object. */
  predicate AllObjects(xs: seq<Value>)
  {
    forall i :: 0 <= i < |xs| ==> xs[i].Obj?
  }

  /** Every element of `xs` is a JSON string. */
  predicate AllStrings(xs: seq<Value>)
  {
    forall i :: 0 <= i < |xs| ==> xs[i].Str?
  }

  /** Wraps each string as a JSON string value. */
  function Strs(xs: seq<string>): (r: seq<Value>)
    ensures |r| == |xs|
    ensures forall i :: 0 <= i < |xs| ==> r[i] == Str(xs[i])
  {
    seq(|xs|, i requires 0 <= i < |xs| => Str(xs[i]))
  }
}
