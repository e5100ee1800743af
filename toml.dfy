/** The part of a parsed TOML document that the configuration reader looks at:
    the `toml::Value` tree and key lookup in a table (`Value::get`). */
module Toml {
  import opened Wrappers

  /** TOML integers are signed 64-bit. */
  type I64 = n: int | -0x8000_0000_0000_0000 <= n < 0x8000_0000_0000_0000

  /** A table is the key/value pairs in iteration order; a parsed table never
      holds a key twice (see DistinctKeys). Floats and datetimes carry no payload
      here: the reader only ever rejects them. */
  datatype Value =
    | String(str: string)
    | Integer(n: I64)
    | Float
    | Boolean(b: bool)
    | Datetime
    | Array(items: seq<Value>)
    | Table(entries: seq<(string, Value)>)

  type Entries = seq<(string, Value)>

  predicate DistinctKeys(entries: Entries) {
    forall i, j :: 0 <= i < j < |entries| ==> entries[i].0 != entries[j].0
  }

  /** The value stored under `key`, if any (the first one, which for a table
      with distinct keys is the only one). */
  function Find(entries: Entries, key: string): (r: Option<Value>)
    ensures r.Some? <==> exists i :: 0 <= i < |entries| && entries[i].0 == key
    ensures r.Some? ==> (key, r.value) in entries
  {
    if entries == [] then None
    else if entries[0].0 == key then Some(entries[0].1)
    else Find(entries[1..], key)
  }

  /** In a table with distinct keys, looking a key up and finding the pair in
      the table say the same thing. */
  lemma FindIsMembership(entries: Entries, key: string, v: Value)
    requires DistinctKeys(entries)
    ensures Find(entries, key) == Some(v) <==> (key, v) in entries
  {
  }

  /** Two distinct-key tables holding the same pairs, in whatever order, give
      the same answer to every lookup. */
  lemma FindIgnoresOrder(entries1: Entries, entries2: Entries, key: string)
    requires DistinctKeys(entries1) && DistinctKeys(entries2)
    requires multiset(entries1) == multiset(entries2)
    ensures Find(entries1, key) == Find(entries2, key)
  {
    var r1 := Find(entries1, key);
    if r1.Some? {
      assert (key, r1.value) in multiset(entries2);
      FindIsMembership(entries2, key, r1.value);
    } else {
      forall w | (key, w) in entries2 ensures (key, w) in entries1 {
        assert (key, w) in multiset(entries2);
      }
    }
  }

  /** `Value::get(key)`: a lookup in a table; every other kind of value has no
      keys. */
  function Get(v: Value, key: string): (r: Option<Value>)
    ensures r.Some? <==> v.Table? && exists i :: 0 <= i < |v.entries| && v.entries[i].0 == key
    ensures r.Some? ==> (key, r.value) in v.entries
  {
    match v
    case Table(entries) => Find(entries, key)
    case _ => None
  }
}
