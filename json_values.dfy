/**
 * JSON documents as `json.load` returns them, and the few dictionary and string operations
 * the zone code applies to them.
 */
module JsonValues {
  import opened Wrappers

  datatype Json =
    | JNull
    | JBool(b: bool)
    | JNum(n: real)
    | JStr(s: string)
    | JArr(items: seq<Json>)
    | JObj(entries: seq<(string, Json)>)

  /** `key in d` for a dict. */
  predicate HasKey(entries: seq<(string, Json)>, key: string) {
    exists i :: 0 <= i < |entries| && entries[i].0 == key
  }

  /** `d.get(key)`: the value stored under `key`, or None. */
  function Get(entries: seq<(string, Json)>, key: string): (r: Option<Json>)
    ensures r.None? <==> !HasKey(entries, key)
    ensures r.Some? ==> exists i :: 0 <= i < |entries| && entries[i] == (key, r.value)
  {
    if entries == [] then None
    else if entries[0].0 == key then Some(entries[0].1)
    else
      var r := Get(entries[1..], key);
      assert forall i :: 0 <= i < |entries| - 1 ==> entries[1..][i] == entries[i + 1];
      assert HasKey(entries, key) ==> HasKey(entries[1..], key) by {
        if HasKey(entries, key) {
          var i :| 0 <= i < |entries| && entries[i].0 == key;
          assert entries[1..][i - 1] == entries[i];
        }
      }
      r
  }

  /** The lookup finds the first entry carrying the key. */
  lemma {:induction false} GetFindsFirst(entries: seq<(string, Json)>, key: string, i: nat)
    requires i < |entries| && entries[i].0 == key
    requires forall j :: 0 <= j < i ==> entries[j].0 != key
    ensures Get(entries, key) == Some(entries[i].1)
  {
    if i > 0 {
      var rest := entries[1..];
      assert rest[i - 1] == entries[i];
      forall j | 0 <= j < i - 1
        ensures rest[j].0 != key
      {
        assert rest[j] == entries[j + 1];
      }
      GetFindsFirst(rest, key, i - 1);
    }
  }

  /** `d.get(key, default)`. */
  function GetOr(entries: seq<(string, Json)>, key: string, default: Json): Json {
    match Get(entries, key)
    case Some(v) => v
    case None => default
  }

  /** Python truthiness of a JSON value. */
  predicate Truthy(v: Json) {
    match v
    case JNull => false
    case JBool(b) => b
    case JNum(n) => n != 0.0
    case JStr(s) => s != []
    case JArr(items) => items != []
    case JObj(entries) => entries != []
  }

  /** `sub in s` for strings. */
  predicate IsSubstring(sub: string, s: string)
    decreases |s|
  {
    |sub| <= |s| && (s[..|sub|] == sub || IsSubstring(sub, s[1..]))
  }

  /** The keys of a dict, in order, each as a JSON string (what iterating a dict yields). */
  function KeyStrings(entries: seq<(string, Json)>): (r: seq<Json>)
    ensures |r| == |entries|
    ensures forall i :: 0 <= i < |r| ==> r[i] == JStr(entries[i].0)
  {
    seq(|entries|, i requires 0 <= i < |entries| => JStr(entries[i].0))
  }

  /** The characters of a string, each as a one-character JSON string. */
  function CharStrings(s: string): (r: seq<Json>)
    ensures |r| == |s|
    ensures forall i :: 0 <= i < |r| ==> r[i] == JStr([s[i]])
  {
    seq(|s|, i requires 0 <= i < |s| => JStr([s[i]]))
  }
}
