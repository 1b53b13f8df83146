/** JavaScript values as the data layer sees them: the JSON-shaped values held
    in the JSON "files", the session store and the app_data table, together
    with JavaScript's notion of truthiness and property lookup. */
module JsValues {

  datatype Option<+T> = None | Some(value: T) {
    function GetOr(default: T): T {
      match this
      case Some(v) => v
      case None => default
    }
  }

  /** One own property of an object, in the object's enumeration order. */
  datatype Member = Member(key: string, value: Json)

  /** A JavaScript value of the kinds that appear in the stored data.
      `Undefined` is JavaScript's undefined (a missing property, an absent
      request field); numbers are modelled as integers. */
  datatype Json =
    | Undefined
    | Null
    | Bool(b: bool)
    | Num(n: int)
    | Str(s: string)
    | Arr(items: seq<Json>)
    | Obj(members: seq<Member>)

  /** JavaScript truthiness: undefined, null, false, 0 and "" are falsy;
      every array and object, even an empty one, is truthy. */
  predicate Truthy(v: Json) {
    match v
    case Undefined => false
    case Null => false
    case Bool(b) => b
    case Num(n) => n != 0
    case Str(s) => s != ""
    case Arr(_) => true
    case Obj(_) => true
  }

  /** Truthiness of an optional string field (None is undefined or null). */
  predicate Present(s: Option<string>) {
    s.Some? && s.value != ""
  }

  /** The value of `key` among `members`, or undefined when there is none. */
  function LookupMember(members: seq<Member>, key: string): (r: Json)
    ensures r != Undefined ==> exists i :: 0 <= i < |members| && members[i].key == key && members[i].value == r
    ensures (forall i :: 0 <= i < |members| ==> members[i].key != key) ==> r == Undefined
  {
    if |members| == 0 then Undefined
    else if members[0].key == key then members[0].value
    else LookupMember(members[1..], key)
  }

  /** `v[key]` for a value that is not null or undefined: objects look the
      key up among their own members, every other value yields undefined. */
  function Property(v: Json, key: string): Json
  {
    if v.Obj? then LookupMember(v.members, key) else Undefined
  }

  /** A value that JSON can represent exactly: no undefined anywhere. */
  ghost predicate Representable(v: Json) {
    match v
    case Undefined => false
    case Arr(items) => forall i :: 0 <= i < |items| ==> Representable(items[i])
    case Obj(ms) => forall i :: 0 <= i < |ms| ==> ms[i].value != Undefined && Representable(ms[i].value)
    case _ => true
  }

  /** The members of an object that JSON.stringify writes out: those whose
      value is not undefined, in order. */
  function DefinedMembers(ms: seq<Member>): (r: seq<Member>)
    ensures |r| <= |ms|
    ensures forall i :: 0 <= i < |r| ==> r[i] in ms && r[i].value != Undefined
  {
    if |ms| == 0 then []
    else if ms[0].value == Undefined then DefinedMembers(ms[1..])
    else [ms[0]] + DefinedMembers(ms[1..])
  }

  /** The value JSON.parse(JSON.stringify(v)) yields for a value nested in
      an array or object: an undefined array element becomes null and
      members whose value is undefined disappear. */
  function Revive(v: Json): Json
    decreases v, 1
  {
    match v
    case Undefined => Null
    case Arr(items) => Arr(ReviveAll(items))
    case Obj(ms) => Obj(ReviveMembers(DefinedMembers(ms), v))
    case _ => v
  }

  function ReviveAll(items: seq<Json>): (r: seq<Json>)
    ensures |r| == |items|
    decreases items, 0
  {
    if |items| == 0 then [] else [Revive(items[0])] + ReviveAll(items[1..])
  }

  /** `ms` are members of `parent`; this bounds the recursion. */
  function ReviveMembers(ms: seq<Member>, ghost parent: Json): (r: seq<Member>)
    requires forall i :: 0 <= i < |ms| ==> ms[i].value < parent
    ensures |r| == |ms|
    ensures forall i :: 0 <= i < |r| ==> r[i].key == ms[i].key
    decreases parent, 0, |ms|
  {
    if |ms| == 0 then [] else [Member(ms[0].key, Revive(ms[0].value))] + ReviveMembers(ms[1..], parent)
  }

  /** JSON.parse(JSON.stringify(v)) at the top level: undefined stays
      undefined (JSON.stringify returns undefined for it). */
  function Normalize(v: Json): Json {
    if v == Undefined then Undefined else Revive(v)
  }

  lemma {:induction false} AllDefined(ms: seq<Member>)
    requires forall i :: 0 <= i < |ms| ==> ms[i].value != Undefined
    ensures DefinedMembers(ms) == ms
  {
    if |ms| > 0 {
      AllDefined(ms[1..]);
    }
  }

  /** A value without undefined anywhere survives the JSON round trip
      unchanged. */
  lemma {:induction false} ReviveRepresentable(v: Json)
    requires Representable(v)
    ensures Revive(v) == v
    decreases v, 1
  {
    match v
    case Arr(items) => ReviveAllRepresentable(items);
    case Obj(ms) =>
      AllDefined(ms);
      ReviveMembersRepresentable(ms, v);
    case _ =>
  }

  lemma {:induction false} ReviveAllRepresentable(items: seq<Json>)
    requires forall i :: 0 <= i < |items| ==> Representable(items[i])
    ensures ReviveAll(items) == items
    decreases items, 0
  {
    if |items| > 0 {
      ReviveRepresentable(items[0]);
      ReviveAllRepresentable(items[1..]);
    }
  }

  lemma {:induction false} ReviveMembersRepresentable(ms: seq<Member>, parent: Json)
    requires forall i :: 0 <= i < |ms| ==> ms[i].value < parent
    requires forall i :: 0 <= i < |ms| ==> Representable(ms[i].value)
    ensures ReviveMembers(ms, parent) == ms
    decreases parent, 0, |ms|
  {
    if |ms| > 0 {
      ReviveRepresentable(ms[0].value);
      ReviveMembersRepresentable(ms[1..], parent);
    }
  }
}
