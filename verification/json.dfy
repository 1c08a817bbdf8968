/** JSON tokens as the query rows present them, with the object operations the adapter relies on. */
module Json {
  import opened Results
  import Lists

  /** A JSON token. Numbers are integers or an opaque tag for a non-integer value. */
  datatype Json =
    | JNull
    | JBool(b: bool)
    | JInt(n: int)
    | JFloat(tag: nat)
    | JString(s: string)
    | JArray(items: seq<Json>)
    | JObject(members: seq<Member>)

  /** One name/value pair of an object, in the object's enumeration order. */
  type Member = (string, Json)

  /** The kind of a token (Newtonsoft's JTokenType, restricted to the kinds modelled here). */
  datatype TokenType = NullToken | BooleanToken | IntegerToken | FloatToken | StringToken | ArrayToken | ObjectToken

  function TypeOf(j: Json): TokenType
  {
    match j
    case JNull => NullToken
    case JBool(_) => BooleanToken
    case JInt(_) => IntegerToken
    case JFloat(_) => FloatToken
    case JString(_) => StringToken
    case JArray(_) => ArrayToken
    case JObject(_) => ObjectToken
  }

  /** The member names of an object, in enumeration order. */
  function Keys(members: seq<Member>): (keys: seq<string>)
    ensures |keys| == |members|
    ensures forall i :: 0 <= i < |members| ==> keys[i] == members[i].0
  {
    seq(|members|, i requires 0 <= i < |members| => members[i].0)
  }

  /** No name occurs twice among the members, as in any object Newtonsoft produces. */
  predicate DistinctKeys(members: seq<Member>)
  {
    forall i, j :: 0 <= i < j < |members| ==> members[i].0 != members[j].0
  }

  /** The object indexer `obj[key]`: the value of the first member named `key`, or None (C# null). */
  function Find(members: seq<Member>, key: string): (v: Option<Json>)
    ensures v.None? <==> key !in Keys(members)
    ensures v.Some? ==> (key, v.value) in members
  {
    var i := Lists.FirstIndex(members, (m: Member) => m.0 == key);
    if i < 0 then
      assert forall j :: 0 <= j < |members| ==> Keys(members)[j] != key;
      None
    else
      assert Keys(members)[i] == key;
      Some(members[i].1)
  }

  /** In an object with distinct names, a member's name finds exactly that member's value. */
  lemma FindDistinct(members: seq<Member>, key: string, v: Json)
    requires DistinctKeys(members)
    requires (key, v) in members
    ensures Find(members, key) == Some(v)
  {
    var j :| 0 <= j < |members| && members[j] == (key, v);
    var i := Lists.FirstIndex(members, (m: Member) => m.0 == key);
    assert 0 <= i <= j;
  }

  /**
   * The names that dynamic member enumeration reports for the current row: the keys of an object, in
   * order; no names for any other token, and none when there is no current row.
   */
  function MemberNames(token: Option<Json>): (names: seq<string>)
    ensures token.Some? && token.value.JObject? ==> names == Keys(token.value.members)
    ensures !(token.Some? && token.value.JObject?) ==> names == []
  {
    match token
    case Some(JObject(members)) => Keys(members)
    case _ => []
  }
}
