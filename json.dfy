/** An already-parsed jsoncpp value and the accessors the export and the import use. The
    members of an object are kept as a map: jsoncpp stores them in a `std::map`, so it visits
    them in byte-wise key order and each name occurs once. jsoncpp itself is not part of this
    model; the accessors follow its documented conversions. */
module JsonValues {
  import opened Wrappers
  import Text

  datatype Json =
    | Null
    | Bool(b: bool)
    | Int(i: int)
    | Str(s: string)
    | Arr(items: seq<Json>)
    | Obj(members: map<string, Json>)

  /** `Get(val, at)`: asserts that `at` is a member; only objects have members. */
  function Get(v: Json, key: string): (r: Result<Json>)
    ensures r.Ok? <==> v.Obj? && key in v.members
    ensures r.Ok? ==> r.value == v.members[key]
  {
    if v.Obj? && key in v.members then Ok(v.members[key]) else Err("missing member " + key)
  }

  /** `asString`: null reads as the empty string, booleans and integers as their text;
      arrays and objects do not convert. */
  function AsString(v: Json): (r: Result<string>)
    ensures r.Ok? <==> !v.Arr? && !v.Obj?
    ensures v.Str? ==> r == Ok(v.s)
  {
    match v
    case Null => Ok("")
    case Str(s) => Ok(s)
    case Bool(b) => Ok(if b then "true" else "false")
    case Int(i) => Ok(Text.IntToString(i))
    case _ => Err("not convertible to string")
  }

  const IntMin: int := -0x8000_0000
  const IntMax: int := 0x7fff_ffff

  /** `asInt`: integers that fit an `int`, null as 0, booleans as 0 or 1; strings, arrays
      and objects do not convert. */
  function AsInt(v: Json): (r: Result<int>)
    ensures r.Ok? <==> v.Null? || v.Bool? || (v.Int? && IntMin <= v.i <= IntMax)
    ensures r.Ok? ==> IntMin <= r.value <= IntMax
    ensures v.Int? && r.Ok? ==> r.value == v.i
  {
    match v
    case Null => Ok(0)
    case Bool(b) => Ok(if b then 1 else 0)
    case Int(i) => if IntMin <= i <= IntMax then Ok(i) else Err("integer out of range")
    case _ => Err("not convertible to int")
  }

  /** `asBool`: null is false, an integer is true when non-zero. */
  function AsBool(v: Json): (r: Result<bool>)
    ensures r.Ok? <==> v.Null? || v.Bool? || v.Int?
    ensures v.Bool? ==> r == Ok(v.b)
  {
    match v
    case Null => Ok(false)
    case Bool(b) => Ok(b)
    case Int(i) => Ok(i != 0)
    case _ => Err("not convertible to bool")
  }

  /** The values a range-for visits: the elements of an array, the members of an object in
      key order, and nothing for null or a scalar. */
  function Items(v: Json): (r: seq<Json>)
    ensures v.Arr? ==> r == v.items
    ensures !v.Arr? && !v.Obj? ==> r == []
    ensures v.Obj? ==> |r| == |v.members|
  {
    match v
    case Arr(items) => items
    case Obj(m) => MemberValues(m, Text.SortedKeys(m.Keys))
    case _ => []
  }

  function MemberValues(m: map<string, Json>, keys: seq<string>): (r: seq<Json>)
    requires forall k | k in keys :: k in m
    ensures |r| == |keys|
    ensures forall i | 0 <= i < |keys| :: r[i] == m[keys[i]]
  {
    seq(|keys|, i requires 0 <= i < |keys| => m[keys[i]])
  }

  /** What `ForEach` visits: (`name()`, value) pairs. Object members come in key order with
      their names; array elements come in order with the empty name. */
  function Entries(v: Json): (r: seq<(string, Json)>)
    ensures v.Arr? ==> |r| == |v.items| && forall i | 0 <= i < |r| :: r[i] == ("", v.items[i])
    ensures !v.Arr? && !v.Obj? ==> r == []
    ensures v.Obj? ==>
      var keys := Text.SortedKeys(v.members.Keys);
      |r| == |keys| && forall i | 0 <= i < |r| :: r[i] == (keys[i], v.members[keys[i]])
  {
    match v
    case Arr(items) => seq(|items|, i requires 0 <= i < |items| => ("", items[i]))
    case Obj(m) =>
      var keys := Text.SortedKeys(m.Keys);
      seq(|keys|, i requires 0 <= i < |keys| => (keys[i], m[keys[i]]))
    case _ => []
  }

  /** `append`: turns null into a one-element array, extends an array. */
  function Append(v: Json, x: Json): (r: Json)
    requires v.Null? || v.Arr?
    ensures r.Arr? && r.items == (if v.Null? then [] else v.items) + [x]
  {
    if v.Null? then Arr([x]) else Arr(v.items + [x])
  }
}
