/** The nested-mapping values the generator builds and rewrites, and the Python
    dictionary that its passes mutate in place. */
module Document {

  datatype Option<T> = None | Some(value: T)

  /** A JSON-like value: the contents of the path and type documents. Nested
      mappings are plain values here; only the top-level dictionary handed to a
      pass is a mutable object (`Dict`). */
  datatype Json =
    | JNull
    | JBool(b: bool)
    | JStr(s: string)
    | JList(items: seq<Json>)
    | JObj(fields: map<string, Json>)

  /** The fields of an object, or none for any other value. */
  function FieldsOf(j: Json): map<string, Json> {
    if j.JObj? then j.fields else map[]
  }

  /** An operation's `parameters` list, or none when it has none. */
  function ParamsOf(op: map<string, Json>): seq<Json> {
    if "parameters" in op && op["parameters"].JList? then op["parameters"].items else []
  }

  /** Keys listed once each, exactly the keys of the map. */
  ghost predicate OrderOk(keys: seq<string>, entries: map<string, Json>) {
    && Distinct(keys)
    && (forall k :: k in entries <==> k in keys)
  }

  /** A Python dictionary as a value: its entries and their insertion order. */
  datatype ODict = ODict(keys: seq<string>, entries: map<string, Json>)

  /** `keys` without `k`. */
  function Without(keys: seq<string>, k: string): (r: seq<string>)
    ensures forall x :: x in r <==> x in keys && x != k
  {
    if keys == [] then []
    else if keys[0] == k then Without(keys[1..], k)
    else [keys[0]] + Without(keys[1..], k)
  }

  /** No key is listed twice. */
  ghost predicate Distinct(keys: seq<string>) {
    forall i, j :: 0 <= i < j < |keys| ==> keys[i] != keys[j]
  }

  lemma {:induction false} WithoutDistinct(keys: seq<string>, k: string)
    requires Distinct(keys)
    ensures Distinct(Without(keys, k))
  {
    if keys != [] {
      assert Distinct(keys[1..]) by {
        forall i, j | 0 <= i < j < |keys[1..]| ensures keys[1..][i] != keys[1..][j] {
          assert keys[1..][i] == keys[i + 1] && keys[1..][j] == keys[j + 1];
        }
      }
      WithoutDistinct(keys[1..], k);
      var rest := Without(keys[1..], k);
      assert keys[0] !in keys[1..];
      assert keys[0] !in rest;
      if keys[0] != k {
        var r := [keys[0]] + rest;
        forall i, j | 0 <= i < j < |r| ensures r[i] != r[j] {
          if i == 0 {
            assert r[j] == rest[j - 1];
          } else {
            assert r[i] == rest[i - 1] && r[j] == rest[j - 1];
          }
        }
      }
    }
  }

  /** `d[k] = v`: an existing key keeps its place, a new key goes last. */
  function Store(d: ODict, k: string, v: Json): ODict {
    ODict(if k in d.entries then d.keys else d.keys + [k], d.entries[k := v])
  }

  /** `del d[k]` (nothing happens when `k` is absent). */
  function Erase(d: ODict, k: string): ODict {
    ODict(Without(d.keys, k), d.entries - {k})
  }

  lemma StoreOk(d: ODict, k: string, v: Json)
    requires OrderOk(d.keys, d.entries)
    ensures OrderOk(Store(d, k, v).keys, Store(d, k, v).entries)
  {
  }

  lemma EraseOk(d: ODict, k: string)
    requires OrderOk(d.keys, d.entries)
    ensures OrderOk(Erase(d, k).keys, Erase(d, k).entries)
  {
    WithoutDistinct(d.keys, k);
  }

  /** A Python `dict` that a pass receives and mutates in place. */
  class Dict {
    var keys: seq<string>
    var entries: map<string, Json>

    ghost predicate Valid()
      reads this
    {
      OrderOk(keys, entries)
    }

    function Value(): ODict
      reads this
    {
      ODict(keys, entries)
    }

    constructor (d: ODict)
      requires OrderOk(d.keys, d.entries)
      ensures Valid() && Value() == d
    {
      keys := d.keys;
      entries := d.entries;
    }

    /** `self[k] = v`. */
    method Put(k: string, v: Json)
      requires Valid()
      modifies this
      ensures Valid() && Value() == Store(old(Value()), k, v)
    {
      StoreOk(Value(), k, v);
      if k !in entries {
        keys := keys + [k];
      }
      entries := entries[k := v];
    }

    /** `del self[k]`, or nothing when `k` is absent. */
    method Delete(k: string)
      requires Valid()
      modifies this
      ensures Valid() && Value() == Erase(old(Value()), k)
    {
      EraseOk(Value(), k);
      keys := Without(keys, k);
      entries := entries - {k};
    }
  }
}
