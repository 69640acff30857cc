/** JSON values: what parsing a JSON text yields. Numbers are finite and exact; an object keeps its order. */
module JsonValues {
  import opened Wrappers

  datatype Member = Member(name: string, value: Json)

  datatype Json =
    | Null
    | Bool(b: bool)
    | Num(n: real)
    | Str(s: string)
    | Arr(items: seq<Json>)
    | Obj(members: seq<Member>)

  predicate Has(members: seq<Member>, name: string) { exists i :: 0 <= i < |members| && members[i].name == name }

  function Get(members: seq<Member>, name: string): (o: Option<Json>)
    ensures o.Some? <==> Has(members, name)
  {
    if members == [] then None
    else if members[0].name == name then
      assert Has(members, name);
      Some(members[0].value)
    else
      TailHas(members, name);
      Get(members[1..], name)
  }

  lemma TailHas(members: seq<Member>, name: string)
    requires members != [] && members[0].name != name
    ensures Has(members, name) <==> Has(members[1..], name)
  {
    if i :| 0 <= i < |members| && members[i].name == name { assert members[1..][i - 1].name == name; }
    if j :| 0 <= j < |members[1..]| && members[1..][j].name == name { assert members[j + 1].name == name; }
  }

  /** A field of a value that may be an object; nothing when it is missing or there is no object. */
  function Field(v: Json, name: string): Option<Json> {
    if v.Obj? then Get(v.members, name) else None
  }

  /** `undefined` or `null`. */
  predicate Absent(o: Option<Json>) { o.None? || o.value.Null? }

  predicate IsObj(o: Option<Json>) { o.Some? && o.value.Obj? }

  function Names(members: seq<Member>): (names: seq<string>)
    ensures |names| == |members| && forall i :: 0 <= i < |names| ==> names[i] == members[i].name
  {
    if members == [] then [] else [members[0].name] + Names(members[1..])
  }

  /** No name occurs twice, as in every parsed object. */
  predicate DistinctNames(members: seq<Member>) {
    forall i, j :: 0 <= i < j < |members| ==> members[i].name != members[j].name
  }

  lemma GetFirst(m: Member, rest: seq<Member>)
    ensures Get([m] + rest, m.name) == Some(m.value)
  {
  }

  lemma GetPast(m: Member, rest: seq<Member>, name: string)
    requires m.name != name
    ensures Get([m] + rest, name) == Get(rest, name)
  {
    assert ([m] + rest)[1..] == rest;
  }

  /** With distinct names, looking a member's name up finds that member. */
  lemma {:induction false} GetAt(members: seq<Member>, i: nat)
    requires DistinctNames(members) && i < |members|
    ensures Get(members, members[i].name) == Some(members[i].value)
  {
    if i > 0 {
      assert members[0].name != members[i].name;
      GetAt(members[1..], i - 1);
    }
  }

  lemma {:induction false} GetIsMember(members: seq<Member>, name: string)
    requires Has(members, name)
    ensures Get(members, name).Some? && Member(name, Get(members, name).value) in members
  {
    if members[0].name != name {
      TailHas(members, name);
      GetIsMember(members[1..], name);
    } else {
      assert members[0] == Member(name, members[0].value);
    }
  }
}
