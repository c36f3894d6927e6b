/**
 * The parsed style document as the style parser sees it through rapidjson:
 * a JSON value whose objects keep their members in document order (duplicate
 * names included) and whose numbers remember whether they were written as
 * integers, which is what rapidjson's IsUint/IsInt tests look at.
 */
module Json {

  datatype Option<T> = None | Some(value: T)

  /** A JSON number: an integer literal, or one with a fraction or exponent. */
  datatype Number = Integer(i: int) | Fractional(r: real)

  datatype Json =
    | Null
    | Bool(b: bool)
    | Num(n: Number)
    | Str(s: string)
    | Arr(items: seq<Json>)
    | Obj(members: seq<Member>)

  datatype Member = Member(name: string, value: Json)

  predicate IsNumber(v: Json) {
    v.Num?
  }

  /** rapidjson's IsUint: an integer that fits an `unsigned`. */
  predicate IsUint(v: Json) {
    v.Num? && v.n.Integer? && 0 <= v.n.i < 0x1_0000_0000
  }

  /** rapidjson's IsInt: an integer that fits an `int`. */
  predicate IsInt(v: Json) {
    v.Num? && v.n.Integer? && -0x8000_0000 <= v.n.i < 0x8000_0000
  }

  /** The first member called `name`, as rapidjson's linear FindMember finds it. */
  function FindIn(ms: seq<Member>, name: string): Option<Json> {
    if ms == [] then None
    else if ms[0].name == name then Some(ms[0].value)
    else FindIn(ms[1..], name)
  }

  /** FindIn finds a member exactly when there is one, and then the first one of that name. */
  lemma {:induction false} FindInFirst(ms: seq<Member>, name: string)
    ensures FindIn(ms, name).Some? <==> exists i :: 0 <= i < |ms| && ms[i].name == name
    ensures FindIn(ms, name).Some? ==>
              exists i :: (0 <= i < |ms| && ms[i].name == name && ms[i].value == FindIn(ms, name).value
                           && forall j :: 0 <= j < i ==> ms[j].name != name)
  {
    if ms != [] && ms[0].name != name {
      FindInFirst(ms[1..], name);
      assert forall i :: 1 <= i < |ms| ==> ms[i] == ms[1..][i - 1];
      var r := FindIn(ms[1..], name);
      if r.Some? {
        var i :| 0 <= i < |ms[1..]| && ms[1..][i].name == name && ms[1..][i].value == r.value
          && forall j :: 0 <= j < i ==> ms[1..][j].name != name;
        assert ms[i + 1].name == name && ms[i + 1].value == r.value;
        assert forall j :: 0 <= j < i + 1 ==> ms[j].name != name;
      }
    }
  }

  /**
   * `value[name]` when `value.HasMember(name)`.  rapidjson asserts that
   * `value` is an object; here a value that is not one has no members.
   */
  function Find(v: Json, name: string): Option<Json> {
    if v.Obj? then FindIn(v.members, name) else None
  }

  predicate HasMember(v: Json, name: string) {
    Find(v, name).Some?
  }

  /** The names of an object's members, in document order. */
  function Names(ms: seq<Member>): (r: seq<string>)
    ensures |r| == |ms| && forall i :: 0 <= i < |ms| ==> r[i] == ms[i].name
  {
    if ms == [] then [] else [ms[0].name] + Names(ms[1..])
  }
}
