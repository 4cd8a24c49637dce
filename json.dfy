/** The untyped JSON value the validator walks (serde_json's `Value`).
    Numbers keep only an integer payload: the validator checks the kind of a
    value, never its precision. An object is a sequence of key/value entries
    searched front to back. */
module JsonValue {
  import opened Wrappers

  datatype Json =
    | JNull
    | JBool(b: bool)
    | JNum(n: int)
    | JStr(s: string)
    | JArr(items: seq<Json>)
    | JObj(members: seq<(string, Json)>)

  /** The value stored under `key`: the first entry with that key, or None
      (serde_json's `Map::get`, on objects without repeated keys). */
  function Lookup(members: seq<(string, Json)>, key: string): (r: Option<Json>)
    ensures r.None? <==> forall i :: 0 <= i < |members| ==> members[i].0 != key
    ensures r.Some? ==> exists i :: 0 <= i < |members| && members[i] == (key, r.value)
  {
    if members == [] then None
    else if members[0].0 == key then Some(members[0].1)
    else Lookup(members[1..], key)
  }

  /** Entries whose keys are not looked up cannot change a lookup, wherever
      they are inserted. */
  lemma {:induction false} LookupSkipsOtherKeys(a: seq<(string, Json)>, extra: seq<(string, Json)>,
                                                b: seq<(string, Json)>, key: string)
    requires forall i :: 0 <= i < |extra| ==> extra[i].0 != key
    ensures Lookup(a + extra + b, key) == Lookup(a + b, key)
    decreases |a| + |extra|
  {
    if a != [] {
      assert (a + extra + b)[1..] == a[1..] + extra + b;
      assert (a + b)[1..] == a[1..] + b;
      if a[0].0 != key {
        LookupSkipsOtherKeys(a[1..], extra, b, key);
      }
    } else if extra != [] {
      assert a + extra + b == extra + b && (extra + b)[1..] == extra[1..] + b;
      assert a + extra[1..] + b == extra[1..] + b;
      LookupSkipsOtherKeys([], extra[1..], b, key);
    }
  }
}
