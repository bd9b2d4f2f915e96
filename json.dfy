/** The JSON-like value the engine validates (serde_json's `Value`). */
module Json {

  import opened Wrappers

  /** The integers serde_json stores exactly: `NegInt(i64)` and `PosInt(u64)`. */
  type JsonInt = x: int | -0x8000_0000_0000_0000 <= x < 0x1_0000_0000_0000_0000

  /**
   * serde_json's `Number`: an integer or a float, told apart by its tag (`json!(42)` is
   * not `json!(42.0)`). Floats are reals (the f64 behaviour is not modelled).
   */
  datatype Number = Int(i: JsonInt) | Float(f: real)

  /** `Number::as_f64` (the rounding of integers beyond 2^53 is not modelled). */
  function AsF64(n: Number): (x: real)
    ensures n.Float? ==> x == n.f
    ensures n.Int? ==> x == n.i as real
  {
    match n
    case Int(i) => i as real
    case Float(f) => f
  }

  /** `Number::as_i64`: an integer within `i64` range; a float or a larger integer gives None. */
  function AsI64(n: Number): (r: Option<int>)
    ensures r.Some? <==> n.Int? && n.i < 0x8000_0000_0000_0000
    ensures r.Some? ==> r.value == n.i
  {
    if n.Int? && n.i < 0x8000_0000_0000_0000 then Some(n.i) else None
  }

  /**
   * Six variants. An object is the sequence of its entries in the map's iteration order. A serde_json
   * map has distinct keys (`DistinctKeys`); the model does not require it, so a sequence
   * with a repeated key, which stands for no serde_json value, also validates, and
   * lookups on it take the first entry with the key.
   */
  datatype Value =
    | Null
    | Bool(b: bool)
    | Num(n: Number)
    | Str(s: string)
    | Arr(items: seq<Value>)
    | Obj(entries: seq<(string, Value)>)

  /** The keys of an object, in iteration order. */
  function Keys(entries: seq<(string, Value)>): (ks: seq<string>)
    ensures |ks| == |entries|
    ensures forall i :: 0 <= i < |entries| ==> ks[i] == entries[i].0
  {
    if entries == [] then [] else [entries[0].0] + Keys(entries[1..])
  }

  /** `obj.get(key)`: the value of the first entry with that key. */
  function Lookup(entries: seq<(string, Value)>, key: string): (r: Option<Value>)
    ensures r.Some? <==> key in Keys(entries)
    ensures r.Some? ==> (key, r.value) in entries
  {
    if entries == [] then None
    else if entries[0].0 == key then Some(entries[0].1)
    else Lookup(entries[1..], key)
  }

  /** The entries of a serde_json map: no key occurs twice. */
  predicate DistinctKeys(entries: seq<(string, Value)>) {
    forall i, j :: 0 <= i < j < |entries| ==> entries[i].0 != entries[j].0
  }

  /** On distinct keys, `obj.get(key)` finds the one entry with that key. */
  lemma {:induction false} LookupDistinct(entries: seq<(string, Value)>, key: string, x: Value)
    requires DistinctKeys(entries) && (key, x) in entries
    ensures Lookup(entries, key) == Some(x)
  {
    var j :| 0 <= j < |entries| && entries[j] == (key, x);
    if entries[0].0 == key {
      assert j == 0;
    } else {
      assert entries[1..][j - 1] == (key, x);
      assert DistinctKeys(entries[1..]) by {
        forall i, k | 0 <= i < k < |entries[1..]| ensures entries[1..][i].0 != entries[1..][k].0 {
          assert entries[1..][i] == entries[i + 1] && entries[1..][k] == entries[k + 1];
        }
      }
      LookupDistinct(entries[1..], key, x);
    }
  }

  /** `get_type_name`: the canonical lowercase name of a value's variant. */
  function TypeName(v: Value): (name: string)
    ensures name in {"null", "boolean", "number", "string", "array", "object"}
    ensures name == "null" <==> v.Null?
    ensures name == "boolean" <==> v.Bool?
    ensures name == "number" <==> v.Num?
    ensures name == "string" <==> v.Str?
    ensures name == "array" <==> v.Arr?
    ensures name == "object" <==> v.Obj?
  {
    match v
    case Null => "null"
    case Bool(_) => "boolean"
    case Num(_) => "number"
    case Str(_) => "string"
    case Arr(_) => "array"
    case Obj(_) => "object"
  }
}
