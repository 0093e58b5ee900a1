/** The parsed JSON values (`serde_json::Value`) that the gateway inspects
    field by field. Objects keep their members in the order the map yields
    them; numbers are integers, or a float kept only as its text. */
module JsonValue {
  import opened Wrappers
  import opened Bytes
  import opened Ints

  datatype Num = Int(i: int) | Float(text: bytes)

  datatype Json =
    | Null
    | Bool(b: bool)
    | Number(n: Num)
    | Str(s: bytes)
    | Array(items: seq<Json>)
    | Object(fields: seq<(bytes, Json)>)

  /** The first member of `fields` called `key`. */
  function Lookup(fields: seq<(bytes, Json)>, key: bytes): Option<Json> {
    if |fields| == 0 then None
    else if fields[0].0 == key then Some(fields[0].1)
    else Lookup(fields[1..], key)
  }

  /** What is found is a member called `key`, and nothing is found only
      when no member is. */
  lemma {:induction false} LookupMeaning(fields: seq<(bytes, Json)>, key: bytes)
    ensures Lookup(fields, key).Some? ==> exists k | 0 <= k < |fields| :: fields[k] == (key, Lookup(fields, key).value)
    ensures Lookup(fields, key).None? ==> forall k | 0 <= k < |fields| :: fields[k].0 != key
  {
    if |fields| > 0 && fields[0].0 != key {
      LookupMeaning(fields[1..], key);
      if Lookup(fields, key).Some? {
        var k :| 0 <= k < |fields[1..]| && fields[1..][k] == (key, Lookup(fields, key).value);
        assert fields[k + 1] == (key, Lookup(fields, key).value);
      }
    }
  }

  /** A member is found when no earlier member has its name. */
  lemma {:induction false} LookupAt(fields: seq<(bytes, Json)>, k: nat)
    requires k < |fields|
    requires forall j | 0 <= j < k :: fields[j].0 != fields[k].0
    ensures Lookup(fields, fields[k].0) == Some(fields[k].1)
  {
    if k > 0 {
      LookupAt(fields[1..], k - 1);
    }
  }

  /** `Value::get(key)`: a member of an object; None for other values. */
  function Get(j: Json, key: bytes): Option<Json> {
    if j.Object? then Lookup(j.fields, key) else None
  }

  /** `Value::as_u64`. */
  function AsU64(j: Json): (r: Option<u64>)
    ensures r.Some? ==> j == Number(Int(r.value))
  {
    if j.Number? && j.n.Int? && 0 <= j.n.i < U64_LIMIT then Some(j.n.i as u64) else None
  }

  /** `Value::as_str`. */
  function AsStr(j: Json): Option<bytes> {
    if j.Str? then Some(j.s) else None
  }

  /** `Value::as_bool`. */
  function AsBool(j: Json): Option<bool> {
    if j.Bool? then Some(j.b) else None
  }

  /** `get(key).and_then(as_u64)`, the way usage counts are read. */
  function GetU64(j: Json, key: bytes): Option<u64> {
    match Get(j, key)
    case None => None
    case Some(v) => AsU64(v)
  }

  /** `get(key).and_then(as_str)`. */
  function GetStr(j: Json, key: bytes): Option<bytes> {
    match Get(j, key)
    case None => None
    case Some(v) => AsStr(v)
  }
}
