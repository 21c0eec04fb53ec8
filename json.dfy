/** The JSON values the report builds before `json.dumps` turns them into text. */
module Json {
  import opened Wrappers

  /** `None`, a `str`, or a `dict` whose members keep their insertion order. */
  datatype Json = Null | Str(text: string) | Object(members: seq<(string, Json)>)

  /** The keys of an object, in order (none for other values). */
  function Keys(j: Json): (ks: seq<string>)
    ensures j.Object? ==> |ks| == |j.members|
    ensures j.Object? ==> forall i :: 0 <= i < |ks| ==> ks[i] == j.members[i].0
  {
    if j.Object? then seq(|j.members|, i requires 0 <= i < |j.members| => j.members[i].0) else []
  }

  /** The value stored under `key` (the first member with that key), as `d.get(key)`. */
  function Get(j: Json, key: string): (r: Option<Json>)
    ensures r.None? <==> key !in Keys(j)
  {
    if !j.Object? then None else Lookup(j.members, key)
  }

  function Lookup(members: seq<(string, Json)>, key: string): (r: Option<Json>)
    ensures r.None? <==> forall i :: 0 <= i < |members| ==> members[i].0 != key
    ensures r.Some? ==> exists i :: 0 <= i < |members| && members[i] == (key, r.value)
  {
    if members == [] then None
    else if members[0].0 == key then Some(members[0].1)
    else
      var r := Lookup(members[1..], key);
      assert forall i :: 1 <= i < |members| ==> members[1..][i - 1] == members[i];
      r
  }

  /** The text under `key` when that member is a string. */
  function StringMember(j: Json, key: string): (r: Option<string>)
    ensures r.Some? ==> Get(j, key) == Some(Str(r.value))
  {
    match Get(j, key)
    case Some(Str(t)) => Some(t)
    case _ => None
  }
}
