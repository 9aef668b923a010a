/** The part of `serde_json::Value` the Sway and Hyprland backends read.
    Parsing is not modelled: a document arrives already as a Json value. */
module Json {
  import opened Wrappers
  import opened Numbers

  /** A JSON document. `Number` is a number written without fraction or
      exponent, other than `-0`; `Float` is any other number, `-0` included,
      as serde_json reads it (no backend reads its value).
      An object lists its members in document order; the keys of an object
      that `serde_json` produced are distinct. */
  datatype Json =
    | Null
    | Bool(b: bool)
    | Number(n: int)
    | Float
    | Str(s: string)
    | Array(items: seq<Json>)
    | Object(members: seq<(string, Json)>)

  function Lookup(members: seq<(string, Json)>, key: string): (r: Option<Json>)
    ensures r.Some? ==> exists i | 0 <= i < |members| :: members[i] == (key, r.value)
    ensures r.None? ==> forall i | 0 <= i < |members| :: members[i].0 != key
  {
    if members == [] then None
    else if members[0].0 == key then Some(members[0].1)
    else
      var r := Lookup(members[1..], key);
      assert forall i | 1 <= i < |members| :: members[1..][i - 1] == members[i];
      r
  }

  /** `value.get(key)`: the member `key` of an object; `None` for a missing
      key and for every value that is not an object. */
  function Get(j: Json, key: string): (r: Option<Json>)
    ensures r.Some? ==> r.value < j
  {
    match j
    case Object(members) => Lookup(members, key)
    case _ => None
  }

  /** `.and_then(|v| v.as_str())` */
  function GetStr(j: Json, key: string): Option<string> {
    match Get(j, key)
    case Some(Str(s)) => Some(s)
    case _ => None
  }

  /** `.and_then(|v| v.as_bool())` */
  function GetBool(j: Json, key: string): Option<bool> {
    match Get(j, key)
    case Some(Bool(b)) => Some(b)
    case _ => None
  }

  /** `.and_then(|v| v.as_u64())`: a non-negative integer that fits in 64 bits. */
  function GetU64(j: Json, key: string): Option<u64> {
    match Get(j, key)
    case Some(Number(n)) => if 0 <= n <= U64_MAX then Some(n) else None
    case _ => None
  }

  /** `.and_then(|v| v.as_array())`, or no children when `key` is not an array. */
  function GetArray(j: Json, key: string): (r: seq<Json>)
    ensures forall c | c in r :: c < j
  {
    match Get(j, key)
    case Some(Array(items)) => items
    case _ => []
  }
}
