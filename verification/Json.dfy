/** JSON values as the two gates see them, with whole-number literals kept apart from the others. */
module Json {
  import opened Common

  datatype Json =
    | Null
    | Bool(truth: bool)
    | Int(i: int)
    | Real(r: real)
    | Str(text: string)
    | Arr(items: seq<Json>)
    | Obj(fields: map<string, Json>)

  /** A JSON text as parsed, with object members in order and possibly repeated. */
  datatype Doc = Scalar(value: Json) | List(items: seq<Doc>) | Members(members: seq<Member>)

  datatype Member = Member(key: string, doc: Doc)

  predicate Numeric(v: Json) { v.Int? || v.Real? }

  function Magnitude(v: Json): real
    requires Numeric(v)
  {
    if v.Int? then v.i as real else v.r
  }

  // ---------------------------------------------------------------- jq, where None is a run-time error

  /** The path step `.key`. */
  function Get(v: Option<Json>, key: string): Option<Json> {
    match v
    case Some(Obj(fields)) => if key in fields then Some(fields[key]) else Some(Null)
    case Some(Null) => Some(Null)
    case _ => None
  }

  /** The path step `[0]`. */
  function First(v: Option<Json>): Option<Json> {
    match v
    case Some(Arr(items)) => if items == [] then Some(Null) else Some(items[0])
    case Some(Null) => Some(Null)
    case _ => None
  }

  /** The filter `length`: a number has its absolute value, a boolean has none. */
  function Length(v: Option<Json>): Option<Json> {
    match v
    case Some(Null) => Some(Int(0))
    case Some(Int(i)) => Some(Int(if i < 0 then -i else i))
    case Some(Real(r)) => Some(Real(if r < 0.0 then -r else r))
    case Some(Str(text)) => Some(Int(|text|))
    case Some(Arr(items)) => Some(Int(|items|))
    case Some(Obj(fields)) => Some(Int(|fields|))
    case _ => None
  }

  /** Equality: numbers are compared by value, whatever their spelling. */
  predicate Same(v: Json, w: Json)
    decreases v
  {
    if Numeric(v) && Numeric(w) then Magnitude(v) == Magnitude(w)
    else match (v, w)
      case (Arr(a), Arr(b)) => |a| == |b| && forall k | 0 <= k < |a| :: Same(a[k], b[k])
      case (Obj(a), Obj(b)) => a.Keys == b.Keys && forall key | key in a :: Same(a[key], b[key])
      case _ => v == w
  }

  function Equals(v: Option<Json>, w: Json): Option<bool> {
    match v
    case Some(value) => Some(Same(value, w))
    case None => None
  }

  /** The operator `and`: its right side matters only when the left side is true. */
  function And(a: Option<bool>, b: Option<bool>): Option<bool> {
    if a == Some(true) then b else a
  }

  /** The filter `.[]` on an array. */
  function Elements(v: Option<Json>): Option<seq<Json>> {
    match v
    case Some(Arr(items)) => Some(items)
    case _ => None
  }

  /** The elements that pass `select(.name == name)`; an element that cannot be indexed is an error. */
  function SelectNamed(items: seq<Json>, name: string): Option<seq<Json>> {
    if items == [] then Some([])
    else
      var rest := SelectNamed(items[1..], name);
      match Equals(Get(Some(items[0]), "name"), Str(name))
      case None => None
      case Some(chosen) => if rest.None? then None else Some((if chosen then [items[0]] else []) + rest.value)
  }

  /** Nothing in it: null, zero, or an empty text, array or object. */
  predicate Empty(v: Json) {
    match v
    case Null => true
    case Int(i) => i == 0
    case Real(r) => r == 0.0
    case Str(text) => text == ""
    case Arr(items) => items == []
    case Obj(fields) => fields == map[]
    case Bool(_) => false
  }

  /** The filter `length == 0` holds of exactly those, and `length > 0` of every other value but a boolean. */
  lemma LengthMeans(v: Json)
    ensures Equals(Length(Some(v)), Int(0)) == Some(true) <==> Empty(v)
    ensures Positive(Some(v)) <==> !Empty(v) && !v.Bool?
  {
  }

  predicate Truthy(v: Option<Json>) { v.Some? && v != Some(Null) && v != Some(Bool(false)) }

  /** The filter `length > 0`. */
  predicate Positive(v: Option<Json>) { Length(v).Some? && Numeric(Length(v).value) && Magnitude(Length(v).value) > 0.0 }
}
