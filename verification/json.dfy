/**
 * Decoded JSON values as the Python scripts hold them after `response.json()`,
 * together with the two Python behaviours the scripts lean on: `dict.get` and
 * truthiness (`if x:` / `not x`).
 *
 * An object keeps its fields in order, as a Python dict keeps insertion order.
 * A dict decoded from JSON has distinct keys; a lookup takes the first field
 * with the key, which is the only one when the keys are distinct.
 */
module Json {
  import opened Wrappers

  datatype Json =
    | Null
    | Bool(b: bool)
    | Int(i: int)
    | Str(s: string)
    | List(items: seq<Json>)
    | Object(fields: seq<Field>)

  datatype Field = Field(key: string, value: Json)

  /** The keys of an object, in order. */
  function Keys(fields: seq<Field>): (ks: seq<string>)
    ensures |ks| == |fields|
    ensures forall i :: 0 <= i < |fields| ==> ks[i] == fields[i].key
  {
    if |fields| == 0 then [] else [fields[0].key] + Keys(fields[1..])
  }

  /** Python `d.get(key)`: the value of the first field named `key`, or None when absent. */
  function Get(fields: seq<Field>, key: string): (r: Option<Json>) {
    if |fields| == 0 then None
    else if fields[0].key == key then Some(fields[0].value)
    else Get(fields[1..], key)
  }

  /**
   * A lookup is absent exactly when no field has the key, and a value it finds
   * is the value of a field with that key.
   */
  lemma {:induction false} GetSpec(fields: seq<Field>, key: string)
    ensures Get(fields, key).None? <==> key !in Keys(fields)
    ensures Get(fields, key).Some? ==> Field(key, Get(fields, key).value) in fields
  {
    if |fields| > 0 {
      GetSpec(fields[1..], key);
      assert fields == [fields[0]] + fields[1..];
    }
  }

  /** The lookup finds the first field with the key: the one every earlier field differs from. */
  lemma {:induction false} GetFindsFirst(fields: seq<Field>, key: string, i: nat)
    requires i < |fields| && fields[i].key == key
    requires forall k :: 0 <= k < i ==> fields[k].key != key
    ensures Get(fields, key) == Some(fields[i].value)
  {
    if i > 0 {
      GetFindsFirst(fields[1..], key, i - 1);
    }
  }

  /** Python `d.get(key, default)`. */
  function GetOr(fields: seq<Field>, key: string, default: Json): Json {
    Get(fields, key).GetOr(default)
  }

  /** Python truthiness of a decoded JSON value. */
  predicate Truthy(v: Json) {
    match v
    case Null => false
    case Bool(b) => b
    case Int(i) => i != 0
    case Str(s) => |s| > 0
    case List(items) => |items| > 0
    case Object(fields) => |fields| > 0
  }

  /** Python `not d.get(key)`: the field is missing or holds a falsy value. */
  predicate MissingOrFalsy(fields: seq<Field>, key: string) {
    var v := Get(fields, key);
    v.None? || !Truthy(v.value)
  }

  /** Python `len(v)`, for the values that have a length. */
  function Len(v: Json): (r: Option<nat>)
    ensures r.Some? <==> (v.Str? || v.List? || v.Object?)
    ensures r.Some? ==> (r.value > 0 <==> Truthy(v))
  {
    match v
    case Str(s) => Some(|s|)
    case List(items) => Some(|items|)
    case Object(fields) => Some(|fields|)
    case _ => None
  }
}
