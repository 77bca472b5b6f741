/** The tree shape that event data, type mappings, conditions and jobs share:
    a JSON value (section 3 of RFC 8259) as Go decodes it into interface{}. */
module Json {

  datatype Json =
    | Null
    | Bool(b: bool)
    | Num(n: real)
    | Str(s: string)
    | Arr(items: seq<Json>)
    | Obj(fields: Fields)
  {
    /** Neither an object nor an array: the `default` case of the Go type switches. */
    predicate IsLeaf() {
      !Arr? && !Obj?
    }
  }

  type Fields = map<string, Json>

  /** Service.addUniqueParams: nest data under the event type's name. */
  function AddUniqueParams(key: string, fields: Fields): Fields {
    map[key := Obj(fields)]
  }

  datatype Unwrapped = Fields(fields: Fields) | TypePanic

  /** Service.removeUniqueParams: the nested object if the key is there, else the
      map itself; a value under the key that is not an object makes the type
      assertion panic. */
  function RemoveUniqueParams(key: string, fields: Fields): Unwrapped {
    if key !in fields then Fields(fields)
    else if fields[key].Obj? then Fields(fields[key].fields)
    else TypePanic
  }

  /** Nesting level. */
  ghost function Depth(c: Json): nat
    decreases c, 2, 0
  {
    match c
    case Arr(xs) => 1 + DepthOfItems(c, xs)
    case Obj(m) => 1 + DepthOfFields(c, m.Keys)
    case _ => 0
  }

  ghost function DepthOfItems(c: Json, xs: seq<Json>): (d: nat)
    requires forall x | x in xs :: x < c
    ensures forall x | x in xs :: Depth(x) <= d
    decreases c, 1, |xs|
  {
    if xs == [] then 0
    else
      assert xs[0] in xs && forall x | x in xs[1..] :: x in xs;
      var d, rest := Depth(xs[0]), DepthOfItems(c, xs[1..]);
      if rest < d then d else rest
  }

  ghost function DepthOfFields(c: Json, keys: set<string>): (d: nat)
    requires c.Obj? && keys <= c.fields.Keys
    ensures forall k | k in keys :: Depth(c.fields[k]) <= d
    decreases c, 1, |keys|
  {
    if keys == {} then 0
    else
      var k :| k in keys;
      var d, rest := Depth(c.fields[k]), DepthOfFields(c, keys - {k});
      if rest < d then d else rest
  }
}
