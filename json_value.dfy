/**
 * Parsed JSON values as JavaScript holds them: objects keep their members in
 * insertion order (which `JSON.stringify` follows), and the falsy values and
 * property lookups follow JavaScript's rules for the cases the modelled code
 * reaches.
 */
module JsonValue {
  import opened Wrappers

  datatype Json =
    | JNull
    | JBool(b: bool)
    | JNum(n: real)
    | JStr(s: string)
    | JArr(items: seq<Json>)
    | JObj(members: seq<Member>)

  datatype Member = Member(key: string, value: Json)

  /** The keys of an object's members, in order. */
  function Keys(members: seq<Member>): (ks: seq<string>)
    ensures |ks| == |members|
    ensures forall i :: 0 <= i < |members| ==> ks[i] == members[i].key
  {
    if |members| == 0 then [] else [members[0].key] + Keys(members[1..])
  }

  /** The value stored under `key`, or `None` (undefined) when no member has it. */
  function Get(members: seq<Member>, key: string): Option<Json>
  {
    if |members| == 0 then None
    else if members[0].key == key then Some(members[0].value)
    else Get(members[1..], key)
  }

  /** A lookup finds a value exactly when some member has the key. */
  lemma {:induction false} GetDefinedIffKey(members: seq<Member>, key: string)
    ensures Get(members, key).Some? <==> key in Keys(members)
  {
    if |members| > 0 {
      assert Keys(members[1..]) == Keys(members)[1..];
      GetDefinedIffKey(members[1..], key);
    }
  }

  /** `v?.[key]`: optional chaining stops at undefined and null; only objects have the named properties looked up here. */
  function Prop(v: Option<Json>, key: string): Option<Json>
  {
    match v
    case Some(JObj(ms)) => Get(ms, key)
    case _ => None
  }

  /** JavaScript truthiness of a possibly-undefined JSON value. */
  predicate Truthy(v: Option<Json>)
  {
    match v
    case None => false
    case Some(JNull) => false
    case Some(JBool(b)) => b
    case Some(JNum(n)) => n != 0.0
    case Some(JStr(s)) => s != ""
    case Some(JArr(_)) => true
    case Some(JObj(_)) => true
  }

  /** `obj[key] = value`: overwrite the first member with that key in place, or append a new member. */
  function SetMember(members: seq<Member>, key: string, value: Json): (r: seq<Member>)
    ensures Keys(r) == if key in Keys(members) then Keys(members) else Keys(members) + [key]
    ensures Get(r, key) == Some(value)
    ensures forall k :: k != key ==> Get(r, k) == Get(members, k)
  {
    if |members| == 0 then [Member(key, value)]
    else if members[0].key == key then
      var r := [Member(key, value)] + members[1..];
      assert r[1..] == members[1..];
      r
    else
      var rest := SetMember(members[1..], key, value);
      var r := [members[0]] + rest;
      assert r[1..] == rest;
      r
  }

  /** Writing back the value a key already has changes nothing. */
  lemma {:induction false} SetMemberSame(members: seq<Member>, key: string, value: Json)
    requires Get(members, key) == Some(value)
    ensures SetMember(members, key, value) == members
  {
    if members[0].key != key {
      SetMemberSame(members[1..], key, value);
      assert members == [members[0]] + members[1..];
    } else {
      assert members == [Member(key, value)] + members[1..];
    }
  }

  /** Setting a key twice leaves the second value, where the first set put it. */
  lemma {:induction false} SetMemberTwice(members: seq<Member>, key: string, first: Json, second: Json)
    ensures SetMember(SetMember(members, key, first), key, second) == SetMember(members, key, second)
  {
    if |members| > 0 && members[0].key != key {
      SetMemberTwice(members[1..], key, first, second);
    }
  }
}
