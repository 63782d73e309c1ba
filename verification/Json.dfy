/** JSON values as serde_json presents them to the program. */
module Json {
  import opened Wrappers
  import opened Text

  /** A double. The model does no arithmetic on one, so a finite value is a bare payload. */
  datatype F64 = Finite(payload: nat) | Infinite(negative: bool) | NotANumber

  /** A JSON number: an integer literal or a (necessarily finite) double. */
  datatype Number = Integer(value: int) | Double(payload: nat)

  datatype Json =
    | Null
    | Bool(b: bool)
    | Num(n: Number)
    | Str(s: string)
    | Arr(items: seq<Json>)
    | Obj(fields: seq<Field>)

  /** One entry of an object, in the map's iteration order. */
  datatype Field = Field(key: string, value: Json)

  /** The standard library's conversions between doubles, integers and text. */
  datatype FloatOps = FloatOps(
    round: int -> nat,
    parse: string -> Option<F64>,
    show: Number -> string,
    fixed2: F64 -> string)
  {
    ghost predicate Sane() {
      && (forall n :: Solid(show(n)))
      && (forall f :: Solid(fixed2(f)))
    }
  }

  /** Printed numbers are non-empty and carry no surrounding white space. */
  type Floats = f: FloatOps | f.Sane()
    ghost witness FloatOps((_: int) => 0, (_: string) => None, (_: Number) => "0", (_: F64) => "0")

  function Keys(fields: seq<Field>): set<string> {
    set i | 0 <= i < |fields| :: fields[i].key
  }

  predicate DistinctKeys(fields: seq<Field>) {
    forall i, j :: 0 <= i < j < |fields| ==> fields[i].key != fields[j].key
  }

  function Get(fields: seq<Field>, key: string): (r: Option<Json>)
    ensures r.Some? <==> key in Keys(fields)
    ensures r.Some? ==> Field(key, r.value) in fields
  {
    if fields == [] then None
    else if fields[0].key == key then Some(fields[0].value)
    else
      assert Keys(fields) == {fields[0].key} + Keys(fields[1..]);
      Get(fields[1..], key)
  }

  /** `value_at_path` with one segment: descend through objects only. */
  function At(v: Json, key: string): Option<Json> {
    if v.Obj? then Get(v.fields, key) else None
  }

  /** `value_at_path` with two segments. */
  function AtAt(v: Json, outer: string, inner: string): Option<Json> {
    match At(v, outer)
    case None => None
    case Some(child) => At(child, inner)
  }
}
