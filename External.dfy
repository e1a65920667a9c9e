/** What the core receives from collaborators it cannot see: the generative
    text service's reply (free text, or a failure of the call) and the values
    `JSON.parse` produces. `JSON.parse` itself is not modelled; the operations
    that use it take it as a function parameter that returns `None` where the
    real one throws. */
module External {
  import opened Wrappers
  import opened Text

  /** A failure of the call to the generative text service: network, refusal
      or quota. */
  datatype ServiceError = ServiceError(reason: string)

  type Reply = Result<string, ServiceError>

  /** A parsed JSON value. */
  datatype Json =
    | JNull
    | JBool(b: bool)
    | JNumber(n: int)
    | JString(s: string)
    | JArray(items: seq<Json>)
    | JObject(members: seq<(string, Json)>)

  /** The stand-in for `JSON.parse`: `None` where it would throw. */
  type Parser = string -> Option<Json>

  /** The value under `key` in an object's members; the last one wins, as
      `JSON.parse` keeps the last of repeated keys. */
  function Lookup(members: seq<(string, Json)>, key: string): (v: Option<Json>)
    ensures v.None? <==> forall i :: 0 <= i < |members| ==> members[i].0 != key
    ensures forall i :: 0 <= i < |members| && members[i].0 == key && LastWithKey(members, key, i) ==>
                          v == Some(members[i].1)
  {
    if members == [] then None
    else if members[|members| - 1].0 == key then Some(members[|members| - 1].1)
    else
      var v := Lookup(members[..|members| - 1], key);
      assert forall i :: 0 <= i < |members| - 1 ==> members[..|members| - 1][i] == members[i];
      v
  }

  /** No member after the `i`th has the key. */
  predicate LastWithKey(members: seq<(string, Json)>, key: string, i: nat) {
    forall j :: i < j < |members| ==> members[j].0 != key
  }

  /** `obj[key] = value`: an existing member keeps its place and takes the
      value; a new key is appended. */
  function SetMember(members: seq<(string, Json)>, key: string, value: Json): seq<(string, Json)>
  {
    if forall i :: 0 <= i < |members| ==> members[i].0 != key then members + [(key, value)]
    else seq(|members|, i requires 0 <= i < |members| => if members[i].0 == key then (key, value) else members[i])
  }

  /** After setting a member, looking it up gives the new value and every
      other key gives what it gave before. */
  lemma SetMemberLookup(members: seq<(string, Json)>, key: string, value: Json, other: string)
    requires other != key
    ensures Lookup(SetMember(members, key, value), key) == Some(value)
    ensures Lookup(SetMember(members, key, value), other) == Lookup(members, other)
  {
    var r := SetMember(members, key, value);
    if forall i :: 0 <= i < |members| ==> members[i].0 != key {
      assert r[..|r| - 1] == members;
    } else {
      var j :| 0 <= j < |members| && members[j].0 == key;
      LookupRewritten(members, r, key, value, j);
      LookupOthers(members, r, key, value, other);
    }
  }

  /** Lookup through a member-wise rewrite that sets every `key` member to
      `value`, when some member `j` has that key, finds `value`. */
  lemma {:induction false} LookupRewritten(members: seq<(string, Json)>, r: seq<(string, Json)>, key: string, value: Json, j: nat)
    requires |r| == |members| && j < |members| && members[j].0 == key
    requires forall i :: 0 <= i < |members| ==> r[i] == if members[i].0 == key then (key, value) else members[i]
    ensures Lookup(r, key) == Some(value)
  {
    var n := |members| - 1;
    if members[n].0 != key {
      assert r[n] == members[n];
      LookupRewritten(members[..n], r[..n], key, value, j);
    }
  }

  /** The lookup of a key that a rewrite of `key` members does not touch. */
  lemma {:induction false} LookupOthers(members: seq<(string, Json)>, r: seq<(string, Json)>, key: string, value: Json, other: string)
    requires |r| == |members| && other != key
    requires forall i :: 0 <= i < |members| ==> r[i] == if members[i].0 == key then (key, value) else members[i]
    ensures Lookup(r, other) == Lookup(members, other)
  {
    if members != [] {
      var n := |members| - 1;
      LookupOthers(members[..n], r[..n], key, value, other);
    }
  }

  /** The members `{...value}` copies: an object's own members, an array's or
      a string's elements under their indices, nothing for other values. */
  function SpreadMembers(value: Json): seq<(string, Json)>
  {
    match value
    case JObject(members) => members
    case JArray(items) => seq(|items|, i requires 0 <= i < |items| => (NatToString(i), items[i]))
    case JString(s) => seq(|s|, i requires 0 <= i < |s| => (NatToString(i), JString([s[i]])))
    case _ => []
  }
}
